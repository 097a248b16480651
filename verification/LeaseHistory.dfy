/** What whole runs of the cluster keep besides exclusion: authority within one process,
    and which fence can move bytes. */
module LeaseHistory {
  import opened Outcomes
  import opened FenceProxy
  import opened FenceProcess
  import opened LeaseCluster
  import opened LeaseExclusion

  // ------------------------------------------- authority and tunnels of one fence

  function Pending(p: Process): Option<int> {
    match p.renewer
    case Granted(d) => Some(d)
    case Listened(d) => Some(d)
    case Arming(_, d) => Some(d)
    case _ => None
  }

  predicate NotBefore(a: Option<int>, b: Option<int>) {
    a.None? || (b.Some? && a.value <= b.value)
  }

  predicate TunnelBounded(p: Process, c: Conn) {
    c in p.tunnels ==> NotBefore(p.tunnels[c].deadline, p.f.authorityDeadline)
  }

  predicate PendingAhead(p: Process) {
    Pending(p).Some? ==> NotBefore(p.f.authorityDeadline, Pending(p))
  }

  lemma AdmittingKeepsBounds(p: Process, a: AcceptStep, c: Conn)
    requires NextAccept(p, a).Some? && TunnelBounded(p, c)
    ensures var q := NextAccept(p, a).value;
            TunnelBounded(q, c) && q.renewer == p.renewer && q.f.authorityDeadline == p.f.authorityDeadline
  {
  }

  lemma TunnelingKeepsBounds(p: Process, d: Conn, t: TunnelStep, c: Conn)
    requires NextTunnel(p, d, t).Some? && TunnelBounded(p, c)
    ensures var q := NextTunnel(p, d, t).value;
            TunnelBounded(q, c) && q.renewer == p.renewer && q.f.authorityDeadline == p.f.authorityDeadline
  {
    if t.Bound? {
      ConnectionDeadlineIsBounded(p.f, t.read);
    }
  }

  lemma RenewingKeepsBounds(p: Process, r: RenewStep, c: Conn)
    requires NextRenew(p, r).Some? && !r.Grant? && TunnelBounded(p, c) && PendingAhead(p)
    ensures var q := NextRenew(p, r).value;
            && TunnelBounded(q, c) && PendingAhead(q)
            && NotBefore(p.f.authorityDeadline, q.f.authorityDeadline)
            && (p.renewer.Leasing? ==> q.f.authorityDeadline == p.f.authorityDeadline)
  {
  }

  lemma ClosingKeepsBounds(p: Process, x: TripStep, c: Conn)
    requires NextTrip(p, x).Some? && TunnelBounded(p, c) && PendingAhead(p)
    ensures var q := NextTrip(p, x).value;
            TunnelBounded(q, c) && PendingAhead(q) && q.f.authorityDeadline == p.f.authorityDeadline
  {
    ClosingKeepsAuthority(p, x);
  }

  lemma ClosingKeepsAuthority(p: Process, x: TripStep)
    requires NextTrip(p, x).Some?
    ensures var q := NextTrip(p, x).value;
            && q.tunnels == p.tunnels && q.f.authorityDeadline == p.f.authorityDeadline
            && (q.renewer == p.renewer || q.renewer == Ended)
  {
    ClosingFrame(p, x);
    if x.Trip? {
      TripFrame(p, x.caller);
    }
  }

  /** Inside one process the authority deadline never goes back, no later authority
      changes a tunnel, and no tunnel outlasts the authority in force. */
  lemma LocalKeepsBounds(p: Process, s: Step, c: Conn)
    requires Next(p, s).Some? && IsLocal(s) && TunnelBounded(p, c) && PendingAhead(p)
    ensures var q := Next(p, s).value;
            && TunnelBounded(q, c) && PendingAhead(q)
            && NotBefore(p.f.authorityDeadline, q.f.authorityDeadline)
            && (p.renewer.Leasing? ==> q.f.authorityDeadline == p.f.authorityDeadline)
  {
    match s
    case Admitting(a) => AdmittingKeepsBounds(p, a, c);
    case Tunneling(d, t) => TunnelingKeepsBounds(p, d, t, c);
    case Closing(x) => ClosingKeepsBounds(p, x, c);
    case Renewing(r) => RenewingKeepsBounds(p, r, c);
    case _ =>
  }

  /** The same for a fence of the cluster, whose next grant is already decided by the
      patch it waits for. */
  predicate FenceBounds(k: Setup, w: World, f: Id, c: Conn)
    requires Shape(k, w) && f in k.configs
  {
    && TunnelBounded(w.fences[f], c)
    && PendingAhead(w.fences[f])
    && (w.requests[f].Awaiting? ==>
          && w.requests[f].attempt < |w.attempts|
          && w.attempts[w.requests[f].attempt].fence == f
          && NotBefore(w.fences[f].f.authorityDeadline, Some(Deadline(k, w.attempts[w.requests[f].attempt]))))
  }

  ghost predicate BoundsInv(k: Setup, w: World)
    requires Shape(k, w)
  {
    forall f, c :: f in k.configs ==> FenceBounds(k, w, f, c)
  }

  lemma AnswerKeepsBounds(k: Setup, w: World, f: Id, c: Conn)
    requires ValidSetup(k) && Inv(k, w) && f in k.configs && FenceBounds(k, w, f, c) && NextAnswer(k, w, f).Some?
    requires Shape(k, NextAnswer(k, w, f).value)
    ensures FenceBounds(k, NextAnswer(k, w, f).value, f, c)
    ensures NextAnswer(k, w, f).value.fences[f].f == w.fences[f].f
  {
    assert AttemptOk(k, w, w.attempts[w.requests[f].attempt]);
    assert RequestOk(k, w, f);
    AnswerOutcome(k, w, f);
  }

  /** An answer ends the request: the renewal has failed, or holds the attempt's deadline. */
  lemma AnswerOutcome(k: Setup, w: World, f: Id)
    requires Shape(k, w) && f in k.configs && NextAnswer(k, w, f).Some?
    requires w.requests[f].attempt < |w.attempts| && w.attempts[w.requests[f].attempt].fence == f
    requires AttemptOk(k, w, w.attempts[w.requests[f].attempt])
    ensures var v, a := NextAnswer(k, w, f).value, w.attempts[w.requests[f].attempt];
            && f in v.fences && f in v.requests && v.requests[f] == Idle
            && v.fences[f] == w.fences[f].(renewer := v.fences[f].renewer)
            && (v.fences[f].renewer == Failed || v.fences[f].renewer == Granted(Deadline(k, a)))
  {
  }

  lemma SendKeepsBounds(k: Setup, w: World, f: Id, c: Conn)
    requires ValidSetup(k) && Inv(k, w) && f in k.configs && FenceBounds(k, w, f, c) && NextSend(k, w, f).Some?
    requires Shape(k, NextSend(k, w, f).value)
    ensures FenceBounds(k, NextSend(k, w, f).value, f, c)
    ensures NextSend(k, w, f).value.fences[f].f == w.fences[f].f
  {
    var a := w.fences[f].f.authorityDeadline;
    if a.Some? {
      assert Holds(w.fences[f], a.value);
      assert Good(k, w, f, a.value);
    }
  }

  lemma LocalEventKeepsBounds(k: Setup, w: World, f: Id, s: Step, c: Conn)
    requires Inv(k, w) && f in k.configs && FenceBounds(k, w, f, c) && NextLocal(w, f, s).Some?
    requires Shape(k, NextLocal(w, f, s).value)
    ensures FenceBounds(k, NextLocal(w, f, s).value, f, c)
    ensures NotBefore(w.fences[f].f.authorityDeadline, NextLocal(w, f, s).value.fences[f].f.authorityDeadline)
  {
    LocalKeepsBounds(w.fences[f], s, c);
    assert RequestOk(k, w, f);
  }

  /** Which events give fence f another process state. */
  predicate Concerns(e: Event, f: Id) {
    match e
    case Tick(_) => false
    case Land(_, _) => false
    case Fetch(g) => g == f
    case Send(g) => g == f
    case Answer(g) => g == f
    case GiveUp(g) => g == f
    case Local(g, _) => g == f
    case Restart(g) => g == f
  }

  lemma OtherEventsKeepFence(k: Setup, w: World, e: Event, f: Id)
    requires Shape(k, w) && f in k.configs && NextWorld(k, w, e).Some? && !Concerns(e, f)
    ensures var v := NextWorld(k, w, e).value;
            && f in v.fences && f in v.requests
            && v.fences[f] == w.fences[f].(clock := v.fences[f].clock) && v.requests[f] == w.requests[f]
  {
  }

  lemma EventsKeepAttempts(k: Setup, w: World, e: Event)
    requires NextWorld(k, w, e).Some?
    ensures var v := NextWorld(k, w, e).value;
            && |w.attempts| <= |v.attempts|
            && (forall i :: 0 <= i < |w.attempts| ==> v.attempts[i] == w.attempts[i].(fate := v.attempts[i].fate))
  {
  }

  /** Events of other fences, of the clock and of the server leave a fence's bounds. */
  lemma OtherEventsKeepBounds(k: Setup, w: World, e: Event, f: Id, c: Conn)
    requires Shape(k, w) && f in k.configs && FenceBounds(k, w, f, c) && NextWorld(k, w, e).Some? && !Concerns(e, f)
    requires Shape(k, NextWorld(k, w, e).value)
    ensures FenceBounds(k, NextWorld(k, w, e).value, f, c)
    ensures NextWorld(k, w, e).value.fences[f].f == w.fences[f].f
  {
    OtherEventsKeepFence(k, w, e, f);
    EventsKeepAttempts(k, w, e);
  }

  lemma EndingRequestKeepsBounds(k: Setup, w: World, e: Event, f: Id, c: Conn)
    requires Shape(k, w) && f in k.configs && FenceBounds(k, w, f, c) && NextWorld(k, w, e).Some?
    requires (e.Fetch? || e.GiveUp? || e.Restart?) && e.f == f && Shape(k, NextWorld(k, w, e).value)
    ensures FenceBounds(k, NextWorld(k, w, e).value, f, c)
    ensures !e.Restart? ==> NextWorld(k, w, e).value.fences[f].f == w.fences[f].f
  {
  }

  lemma NextKeepsBounds(k: Setup, w: World, e: Event, f: Id, c: Conn)
    requires ValidSetup(k) && Inv(k, w) && f in k.configs && FenceBounds(k, w, f, c) && NextWorld(k, w, e).Some?
    requires Shape(k, NextWorld(k, w, e).value)
    ensures FenceBounds(k, NextWorld(k, w, e).value, f, c)
    ensures e != Restart(f) ==>
              NotBefore(w.fences[f].f.authorityDeadline, NextWorld(k, w, e).value.fences[f].f.authorityDeadline)
  {
    if !Concerns(e, f) {
      OtherEventsKeepBounds(k, w, e, f, c);
    } else {
      match e
      case Send(_) => SendKeepsBounds(k, w, f, c);
      case Answer(_) => AnswerKeepsBounds(k, w, f, c);
      case Local(_, s) => LocalEventKeepsBounds(k, w, f, s, c);
      case _ => EndingRequestKeepsBounds(k, w, e, f, c);
    }
  }

  lemma {:induction false} RunKeepsBounds(k: Setup, w: World, events: seq<Event>)
    requires ValidSetup(k) && Init(k, w) && Run(k, w, events).Some?
    ensures Inv(k, Run(k, w, events).value) && BoundsInv(k, Run(k, w, events).value)
  {
    InitInv(k, w);
    if events == [] {
    } else {
      var before := events[..|events| - 1];
      RunKeepsBounds(k, w, before);
      var u := Run(k, w, before).value;
      NextKeepsInv(k, u, events[|events| - 1]);
      forall f, c | f in k.configs ensures FenceBounds(k, Run(k, w, events).value, f, c) {
        assert FenceBounds(k, u, f, c);
        NextKeepsBounds(k, u, events[|events| - 1], f, c);
      }
    }
  }

  /** Authority deadlines never decrease within a process, over all runs. */
  lemma AuthorityNeverDecreases(k: Setup, w: World, e: Event, f: Id)
    requires ValidSetup(k) && Reachable(k, w) && f in k.configs && e != Restart(f) && NextWorld(k, w, e).Some?
    ensures f in w.fences && f in NextWorld(k, w, e).value.fences
    ensures NotBefore(w.fences[f].f.authorityDeadline, NextWorld(k, w, e).value.fences[f].f.authorityDeadline)
  {
    var start, events :| Init(k, start) && Run(k, start, events) == Some(w);
    RunKeepsBounds(k, start, events);
    NextKeepsInv(k, w, e);
    assert FenceBounds(k, w, f, 0);
    NextKeepsBounds(k, w, e, f, 0);
  }

  lemma MovesBeforeDeadline(p: Process, c: Conn)
    requires CanMove(p, c)
    ensures c in p.tunnels && p.tunnels[c].deadline.Some? && p.clock < p.tunnels[c].deadline.value
  {
  }

  lemma TunnelsAreBounded(k: Setup, w: World, f: Id, c: Conn)
    requires ValidSetup(k) && Reachable(k, w) && f in w.fences
    ensures TunnelBounded(w.fences[f], c)
  {
    var start, events :| Init(k, start) && Run(k, start, events) == Some(w);
    RunKeepsBounds(k, start, events);
    assert FenceBounds(k, w, f, c);
  }

  /** Whatever a tunnel can still read or write, it can only before its own deadline, which is
      at most the authority in force. */
  lemma MovesAreWithinAuthority(k: Setup, w: World, f: Id, c: Conn)
    requires ValidSetup(k) && Reachable(k, w) && f in w.fences && CanMove(w.fences[f], c)
    ensures var p := w.fences[f];
            && c in p.tunnels && p.tunnels[c].deadline.Some? && p.f.authorityDeadline.Some?
            && p.clock < p.tunnels[c].deadline.value <= p.f.authorityDeadline.value
  {
    MovesBeforeDeadline(w.fences[f], c);
    TunnelsAreBounded(k, w, f, c);
  }

  lemma MovingFenceIsLive(k: Setup, w: World, f: Id, c: Conn)
    requires ValidSetup(k) && Reachable(k, w) && f in w.fences && CanMove(w.fences[f], c)
    ensures Live(w, f)
  {
    MovesAreWithinAuthority(k, w, f, c);
    assert LiveDeadline(w.fences[f], w.fences[f].f.authorityDeadline.value);
  }

  /** At any instant of any run at most one fence can read or write on any of its tunnels,
      a chunk left in hand by a closed client included; and that fence is the Lease's holder. */
  lemma OneFenceMovesBytes(k: Setup, w: World, f: Id, c: Conn, g: Id, d: Conn)
    requires ValidSetup(k) && MarginsCoverSkew(k) && Reachable(k, w)
    requires f in w.fences && g in w.fences && CanMove(w.fences[f], c) && CanMove(w.fences[g], d)
    ensures f == g && w.doc.holderIdentity == Some(f)
  {
    MovingFenceIsLive(k, w, f, c);
    MovingFenceIsLive(k, w, g, d);
    MutualExclusion(k, w, f, g);
  }
}
