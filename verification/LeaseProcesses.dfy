/** Every fence of the cluster is a run of one fence process: so whatever holds of
    all interleavings of one process holds of each fence, in every cluster run. */
module LeaseProcesses {
  import opened Outcomes
  import opened FenceProxy
  import opened FenceProcess
  import opened FenceConnections
  import opened FenceAuthority
  import opened FenceTraffic
  import opened FenceLastChunk
  import opened LeaseCluster
  import opened LeaseExclusion
  import opened LeaseHistory

  ghost predicate ProcessInv(p: Process) {
    ConnectionsInv(p) && ReceiptsInv(p) && TrafficsInv(p) && WatchInv(p) && ClientInv(p) && StartInv(p)
  }

  lemma BootInv(clock: int, maxAge: int)
    ensures ProcessInv(Boot(clock, maxAge))
  {
  }

  lemma StepKeepsProcessInv(p: Process, s: Step)
    requires ProcessInv(p) && Next(p, s).Some?
    ensures ProcessInv(Next(p, s).value)
  {
    ConnectionsKept(p, s);
    ReceiptsKept(p, s);
    TrafficsKept(p, s);
    WatchKept(p, s);
    ClientKept(p, s);
    StartKept(p, s);
  }

  /** What an event is to one fence: nothing, a step of its process, or a new boot. */
  ghost predicate ProcessMove(p: Process, q: Process) {
    ProcessStep(p, q) || (exists maxAge :: q == Boot(p.clock, maxAge))
  }

  ghost predicate ProcessStep(p: Process, q: Process) {
    q == p || (exists s :: Next(p, s) == Some(q))
  }

  lemma ClockMoves(p: Process, q: Process)
    requires p.clock <= q.clock && q == p.(clock := q.clock)
    ensures ProcessStep(p, q)
  {
    assert Next(p, Advance(q.clock)) == Some(q);
  }

  lemma AbandonMoves(p: Process)
    requires p.renewer.Leasing?
    ensures ProcessStep(p, p.(renewer := Failed))
  {
    assert Next(p, Renewing(Refuse)) == Some(p.(renewer := Failed));
  }

  lemma AnswerMoves(k: Setup, w: World, f: Id)
    requires Shape(k, w) && f in k.configs && NextAnswer(k, w, f).Some?
    ensures ProcessStep(w.fences[f], NextAnswer(k, w, f).value.fences[f])
  {
    var p, q := w.fences[f], NextAnswer(k, w, f).value.fences[f];
    AbandonMoves(p);
    if q.renewer.Granted? {
      assert Next(p, Renewing(Grant(q.renewer.deadline))) == Some(q);
    }
  }

  lemma EventsAreProcessMoves(k: Setup, w: World, e: Event, f: Id)
    requires Shape(k, w) && f in k.configs && NextWorld(k, w, e).Some?
    ensures f in NextWorld(k, w, e).value.fences
    ensures ProcessMove(w.fences[f], NextWorld(k, w, e).value.fences[f])
    ensures e != Restart(f) ==> ProcessStep(w.fences[f], NextWorld(k, w, e).value.fences[f])
  {
    var q := NextWorld(k, w, e).value.fences[f];
    if !Concerns(e, f) {
      OtherEventsKeepFence(k, w, e, f);
      ClocksGoForward(k, w, e, f);
      ClockMoves(w.fences[f], q);
    } else {
      match e
      case Fetch(_) => if q != w.fences[f] { AbandonMoves(w.fences[f]); }
      case Send(_) => if q != w.fences[f] { AbandonMoves(w.fences[f]); }
      case Answer(_) => AnswerMoves(k, w, f);
      case GiveUp(_) => AbandonMoves(w.fences[f]);
      case Local(_, s) => assert Next(w.fences[f], s) == Some(q);
      case Restart(_) => assert q == Boot(w.fences[f].clock, k.maxAge[f]);
    }
  }

  lemma ClocksGoForward(k: Setup, w: World, e: Event, f: Id)
    requires Shape(k, w) && f in k.configs && NextWorld(k, w, e).Some? && !Concerns(e, f)
    ensures f in NextWorld(k, w, e).value.fences && w.fences[f].clock <= NextWorld(k, w, e).value.fences[f].clock
  {
  }

  lemma MoveKeepsProcessInv(p: Process, q: Process)
    requires ProcessInv(p) && ProcessMove(p, q)
    ensures ProcessInv(q)
  {
    if q == p {
    } else if s :| Next(p, s) == Some(q) {
      StepKeepsProcessInv(p, s);
    } else if maxAge :| q == Boot(p.clock, maxAge) {
      BootInv(p.clock, maxAge);
    }
  }

  ghost predicate ProcessesInv(k: Setup, w: World) {
    && Shape(k, w)
    && (forall f <- k.configs :: ProcessInv(w.fences[f]))
  }

  lemma NextKeepsProcesses(k: Setup, w: World, e: Event)
    requires ValidSetup(k) && Inv(k, w) && ProcessesInv(k, w) && NextWorld(k, w, e).Some?
    ensures ProcessesInv(k, NextWorld(k, w, e).value)
  {
    NextKeepsInv(k, w, e);
    forall f | f in k.configs ensures ProcessInv(NextWorld(k, w, e).value.fences[f]) {
      EventsAreProcessMoves(k, w, e, f);
      MoveKeepsProcessInv(w.fences[f], NextWorld(k, w, e).value.fences[f]);
    }
  }

  lemma {:induction false} RunKeepsProcesses(k: Setup, w: World, events: seq<Event>)
    requires ValidSetup(k) && Init(k, w) && Run(k, w, events).Some?
    ensures Inv(k, Run(k, w, events).value) && ProcessesInv(k, Run(k, w, events).value)
  {
    InitInv(k, w);
    if events == [] {
      forall f | f in k.configs ensures ProcessInv(w.fences[f]) {
        BootInv(w.fences[f].clock, k.maxAge[f]);
      }
    } else {
      RunKeepsProcesses(k, w, events[..|events| - 1]);
      var u := Run(k, w, events[..|events| - 1]).value;
      NextKeepsInv(k, u, events[|events| - 1]);
      NextKeepsProcesses(k, u, events[|events| - 1]);
    }
  }

  /** In every cluster run each fence keeps its connection, receipt, traffic, watchdog and client
      invariants; so once tripped none of its tunnels has both sockets open, and every tunnel is
      the client's. */
  lemma EveryFenceKeepsItsInvariants(k: Setup, w: World, f: Id)
    requires ValidSetup(k) && Reachable(k, w) && f in k.configs
    ensures f in w.fences && ProcessInv(w.fences[f])
    ensures w.fences[f].closer.Tripped? ==>
              forall c :: c in w.fences[f].tunnels && c in w.fences[f].open ==> !w.fences[f].tunnels[c].upstreamOpen
    ensures forall c :: c in w.fences[f].tunnels ==> FromClient(w.fences[f], c)
  {
    var start, events :| Init(k, start) && Run(k, start, events) == Some(w);
    RunKeepsProcesses(k, start, events);
    if w.fences[f].closer.Tripped? {
      AfterTripConnectionsAreClosed(w.fences[f]);
    }
  }

  // ------------------------------------------------------- a tripped fence in the cluster

  ghost predicate StilledAll(p: Process, q: Process) {
    forall c :: Stilled(p, q, c)
  }

  lemma StepKeepsStilled(p: Process, q: Process, r: Process)
    requires StilledAll(p, q) && FencingInv(q) && ProcessStep(q, r)
    ensures StilledAll(p, r)
  {
    if r != q {
      var s :| Next(q, s) == Some(r);
      forall c ensures Stilled(p, r, c) {
        StaysStill(p, q, s, c);
      }
    }
  }

  ghost predicate StillIn(k: Setup, p: Process, w: World, f: Id) {
    Inv(k, w) && ProcessesInv(k, w) && f in k.configs && StilledAll(p, w.fences[f])
  }

  lemma EventKeepsStill(k: Setup, p: Process, w: World, e: Event, f: Id)
    requires ValidSetup(k) && StillIn(k, p, w, f) && e != Restart(f) && NextWorld(k, w, e).Some?
    ensures StillIn(k, p, NextWorld(k, w, e).value, f)
  {
    NextKeepsInv(k, w, e);
    NextKeepsProcesses(k, w, e);
    EventsAreProcessMoves(k, w, e, f);
    StepKeepsStilled(p, w.fences[f], NextWorld(k, w, e).value.fences[f]);
  }

  lemma AllStillAtTrip(p: Process)
    requires ConnectionsInv(p) && p.closer.Tripped?
    ensures StilledAll(p, p)
  {
    forall c ensures Stilled(p, p, c) {
      StilledAtTrip(p, c);
    }
  }

  lemma LastEvent(k: Setup, w: World, events: seq<Event>) returns (u: World, e: Event, v: World)
    requires events != [] && Run(k, w, events).Some?
    ensures Run(k, w, events[..|events| - 1]) == Some(u) && e == events[|events| - 1]
    ensures NextWorld(k, u, e) == Some(v) && Run(k, w, events) == Some(v)
  {
    u, e := Run(k, w, events[..|events| - 1]).value, events[|events| - 1];
    v := NextWorld(k, u, e).value;
  }

  lemma {:induction false} RunKeepsStill(k: Setup, p: Process, w: World, events: seq<Event>, f: Id, v: World)
    requires ValidSetup(k) && StillIn(k, p, w, f) && Restart(f) !in events && Run(k, w, events) == Some(v)
    ensures StillIn(k, p, v, f)
    decreases |events|
  {
    if events != [] {
      var u, e, last := LastEvent(k, w, events);
      assert e in events;
      RunKeepsStill(k, p, w, events[..|events| - 1], f, u);
      EventKeepsStill(k, p, u, e, f);
    }
  }

  lemma ReachableProcesses(k: Setup, w: World)
    requires ValidSetup(k) && Reachable(k, w)
    ensures Inv(k, w) && ProcessesInv(k, w)
  {
    var start, events :| Init(k, start) && Run(k, start, events) == Some(w);
    RunKeepsProcesses(k, start, events);
  }

  /** From the end of a fence's close loop on, until it restarts, over every run of the cluster:
      on each of its tunnels no more reaches the signer than the one chunk in hand. */
  lemma TrippedFenceDeliversTheChunkInHand(k: Setup, w: World, events: seq<Event>, f: Id, c: Conn)
    requires ValidSetup(k) && Reachable(k, w) && f in k.configs && f in w.fences && w.fences[f].closer.Tripped?
    requires Restart(f) !in events && Run(k, w, events).Some?
    ensures f in Run(k, w, events).value.fences
    ensures var p, q := w.fences[f], Run(k, w, events).value.fences[f];
      TrafficOf(q, c).toSigner.delivered <= TrafficOf(p, c).toSigner.read <= TrafficOf(p, c).toSigner.delivered + 1
  {
    assert Inv(k, w) && ProcessesInv(k, w) by {
      ReachableProcesses(k, w);
    }
    AllStillAtTrip(w.fences[f]);
    RunKeepsStill(k, w.fences[f], w, events, f, Run(k, w, events).value);
    var p, q := w.fences[f], Run(k, w, events).value.fences[f];
    assert TrafficInv(p, c) && TrafficInv(q, c) && Stilled(p, q, c);
    StilledDeliversTheChunkInHand(p, q, c);
  }

  // ---------------------------------------------------- exactly when, in the cluster

  /** The fence's process and its connection drained, with so much delivered to the signer. */
  ghost predicate DrainedIn(k: Setup, w: World, f: Id, c: Conn, delivered: nat) {
    && Inv(k, w) && ProcessesInv(k, w) && f in k.configs
    && Drained(w.fences[f], c) && TrafficOf(w.fences[f], c).toSigner.delivered == delivered
  }

  lemma StepKeepsDrained(p: Process, q: Process, c: Conn)
    requires Drained(p, c) && ReceiptsInv(p) && ProcessStep(p, q)
    ensures Drained(q, c) && TrafficOf(q, c).toSigner.delivered == TrafficOf(p, c).toSigner.delivered
  {
    if q != p {
      var s :| Next(p, s) == Some(q);
      assert TunnelInv(p, c);
      StaysDrained(p, s, c);
    }
  }

  lemma EventKeepsDrained(k: Setup, w: World, e: Event, f: Id, c: Conn, delivered: nat)
    requires ValidSetup(k) && DrainedIn(k, w, f, c, delivered) && e != Restart(f) && NextWorld(k, w, e).Some?
    ensures DrainedIn(k, NextWorld(k, w, e).value, f, c, delivered)
  {
    NextKeepsInv(k, w, e);
    NextKeepsProcesses(k, w, e);
    EventsAreProcessMoves(k, w, e, f);
    StepKeepsDrained(w.fences[f], NextWorld(k, w, e).value.fences[f], c);
  }

  lemma {:induction false} RunKeepsDrained(k: Setup, w: World, events: seq<Event>, f: Id, c: Conn, delivered: nat,
                                           v: World)
    requires ValidSetup(k) && DrainedIn(k, w, f, c, delivered) && Restart(f) !in events && Run(k, w, events) == Some(v)
    ensures DrainedIn(k, v, f, c, delivered)
    decreases |events|
  {
    if events != [] {
      var u, e, last := LastEvent(k, w, events);
      assert e in events;
      RunKeepsDrained(k, w, events[..|events| - 1], f, c, delivered, u);
      EventKeepsDrained(k, u, e, f, c, delivered);
    }
  }

  /** The events, without a restart of the fence, bring a chunk of it to its signer. */
  ghost predicate ReachesIn(k: Setup, w: World, events: seq<Event>, f: Id, c: Conn) {
    && Restart(f) !in events && Run(k, w, events).Some?
    && f in w.fences && f in Run(k, w, events).value.fences
    && TrafficOf(Run(k, w, events).value.fences[f], c).toSigner.delivered > TrafficOf(w.fences[f], c).toSigner.delivered
  }

  lemma DeliveryReachesIn(k: Setup, w: World, f: Id, c: Conn)
    requires f in w.fences && NextMove(w.fences[f], c, Deliver(ToSigner)).Some?
    ensures ReachesIn(k, w, [Local(f, Moving(c, Deliver(ToSigner)))], f, c)
  {
    var e := Local(f, Moving(c, Deliver(ToSigner)));
    assert [e][..0] == [];
    assert Run(k, w, [e][..0]) == Some(w);
    assert NextWorld(k, w, e).Some?;
  }

  lemma NowOrDrainedIn(k: Setup, w: World, f: Id, c: Conn)
    requires Inv(k, w) && ProcessesInv(k, w) && f in k.configs && w.fences[f].closer.Tripped?
    requires NextMove(w.fences[f], c, Deliver(ToSigner)).None?
    ensures DrainedIn(k, w, f, c, TrafficOf(w.fences[f], c).toSigner.delivered)
  {
    assert ProcessInv(w.fences[f]);
    DeliversNowOrNever(w.fences[f], c);
  }

  lemma DrainedReachesNothing(k: Setup, w: World, f: Id, c: Conn, delivered: nat, events: seq<Event>)
    requires ValidSetup(k) && DrainedIn(k, w, f, c, delivered)
    ensures !ReachesIn(k, w, events, f, c)
  {
    if Restart(f) !in events && Run(k, w, events).Some? {
      RunKeepsDrained(k, w, events, f, c, delivered, Run(k, w, events).value);
    }
  }

  lemma NothingMoreReaches(k: Setup, w: World, f: Id, c: Conn)
    requires ValidSetup(k) && Inv(k, w) && ProcessesInv(k, w) && f in k.configs && w.fences[f].closer.Tripped?
    requires NextMove(w.fences[f], c, Deliver(ToSigner)).None?
    ensures forall events :: !ReachesIn(k, w, events, f, c)
  {
    NowOrDrainedIn(k, w, f, c);
    forall events ensures !ReachesIn(k, w, events, f, c) {
      DrainedReachesNothing(k, w, f, c, TrafficOf(w.fences[f], c).toSigner.delivered, events);
    }
  }

  lemma OnlyADeliveryReaches(k: Setup, w: World, f: Id, c: Conn)
    requires ValidSetup(k) && Reachable(k, w) && f in k.configs && f in w.fences && w.fences[f].closer.Tripped?
    ensures NextMove(w.fences[f], c, Deliver(ToSigner)).None? ==> forall events :: !ReachesIn(k, w, events, f, c)
  {
    ReachableProcesses(k, w);
    if NextMove(w.fences[f], c, Deliver(ToSigner)).None? {
      NothingMoreReaches(k, w, f, c);
    }
  }

  /** In every cluster run, exactly when a fence whose close loop has finished still brings something to
      its signer before it restarts: a chunk is in hand, the upstream open and the deadline ahead. */
  lemma TrippedFenceDeliversExactly(k: Setup, w: World, f: Id, c: Conn)
    requires ValidSetup(k) && Reachable(k, w) && f in k.configs && f in w.fences && w.fences[f].closer.Tripped?
    ensures (exists events :: ReachesIn(k, w, events, f, c)) <==> NextMove(w.fences[f], c, Deliver(ToSigner)).Some?
  {
    OnlyADeliveryReaches(k, w, f, c);
    if NextMove(w.fences[f], c, Deliver(ToSigner)).Some? {
      DeliveryReachesIn(k, w, f, c);
    }
  }
}
