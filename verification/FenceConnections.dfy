/** What every interleaving of accept loop, proxy goroutines and `trip` keeps. */
module FenceConnections {
  import opened FenceProxy
  import opened FenceProcess

  predicate InHand(p: Process, c: Conn) {
    || (p.acceptor.Checking? && p.acceptor.conn == c)
    || (p.acceptor.Admitted? && p.acceptor.conn == c)
    || (p.acceptor.Rejecting? && p.acceptor.conn == c)
  }

  /** The stages during which a connection is in the shared map. */
  predicate Registered(s: Stage) {
    !s.ClosingClient? && !s.Finished?
  }

  /** The stages after the receipt was written. */
  predicate Reported(s: Stage) {
    s.Leaving? || s.ClosingClient? || s.Finished?
  }

  // -------------------------------------------------------- connections and trip

  /** What holds of one connection number, accepted or not. */
  predicate ConnectionInv(p: Process, c: Conn) {
    && (c in p.f.connections <==> c in p.tunnels && Registered(p.tunnels[c].stage))
    && (c in p.tunnels ==> c in p.hosts)
    && (InHand(p, c) ==> c in p.hosts && c !in p.tunnels)
    && (c in p.open ==> InHand(p, c) || (c in p.tunnels && !p.tunnels[c].stage.Finished?))
    && (c in p.tunnels && p.tunnels[c].upstreamOpen ==>
          p.tunnels[c].stage.Copying? || p.tunnels[c].stage.ClosingUpstream?)
    && (c in p.open && c in p.f.connections ==>
          match p.closer
          case Untripped => true
          case ClosingListener(rest) => c in rest
          case ClosingConnections(rest) => c in rest
          case Tripped => false)
  }

  predicate FencingInv(p: Process) {
    && (p.f.fenced <==> !p.closer.Untripped?)
    && (p.closer.ClosingConnections? || p.closer.Tripped? ==> !p.listenerOpen)
    && (p.acceptor.NotStarted? ==> !p.f.fenced)
    && (p.listenerOpen ==> p.f.listening)
  }

  ghost predicate ConnectionsInv(p: Process) {
    && FencingInv(p)
    && (forall c :: ConnectionInv(p, c))
  }

  lemma ProgressKeepsStage(t: Tunnel, s: TunnelStep, f: Fields, clock: int, freshId: nat)
    requires Progress(t, s, f, clock, freshId).Some?
    ensures var n := Progress(t, s, f, clock, freshId).value;
            && !t.stage.Finished?
            && (n.stage.Finished? <==> t.stage.ClosingClient?)
            && (n.stage.ClosingClient? <==> t.stage.Leaving?)
            && (n.stage.Leaving? <==> t.stage.Reporting?)
            && (Reported(n.stage) <==> t.stage.Reporting? || Reported(t.stage))
            && (Registered(n.stage) <==> Registered(t.stage) && !t.stage.Leaving?)
            && (n.upstreamOpen <==> n.stage.Copying? || (t.upstreamOpen && !t.stage.ClosingUpstream?))
            && (t.stage.Copying? ==> n.stage.ClosingUpstream?)
  {
  }

  lemma ConnectionKeptByTunnel(p: Process, d: Conn, s: TunnelStep, c: Conn)
    requires FencingInv(p) && ConnectionInv(p, c) && NextTunnel(p, d, s).Some?
    ensures ConnectionInv(NextTunnel(p, d, s).value, c)
  {
    ProgressKeepsStage(p.tunnels[d], s, p.f, p.clock, p.nextID + 1);
  }

  lemma TrippingKept(p: Process, c: Conn)
    requires FencingInv(p) && ConnectionInv(p, c)
    ensures ConnectionInv(Tripping(p), c)
  {
  }

  lemma ConnectionKeptByTrip(p: Process, x: TripStep, c: Conn)
    requires FencingInv(p) && ConnectionInv(p, c) && NextTrip(p, x).Some?
    ensures ConnectionInv(NextTrip(p, x).value, c)
  {
    match x
    case Trip(caller) => TrippingKept(p, c);
    case _ =>
  }

  lemma ConnectionKeptByAccept(p: Process, a: AcceptStep, c: Conn)
    requires FencingInv(p) && ConnectionInv(p, c) && NextAccept(p, a).Some?
    ensures ConnectionInv(NextAccept(p, a).value, c)
  {
  }

  /** Everything a connection's invariant speaks of. */
  ghost predicate SameConnections(p: Process, q: Process) {
    && q.tunnels == p.tunnels && q.hosts == p.hosts && q.open == p.open && q.closer == p.closer
    && q.f.connections == p.f.connections && q.f.fenced == p.f.fenced
    && (q.acceptor == p.acceptor || (p.acceptor.NotStarted? && q.acceptor.Accepting?))
  }

  lemma RenewingKeepsMap(p: Process, r: RenewStep)
    requires NextRenew(p, r).Some?
    ensures var q := NextRenew(p, r).value;
      && q.f.connections == p.f.connections && q.f.fenced == p.f.fenced
      && (q.acceptor == p.acceptor || (p.acceptor.NotStarted? && q.acceptor.Accepting?))
  {
  }

  lemma RenewingKeepsConnections(p: Process, r: RenewStep)
    requires NextRenew(p, r).Some?
    ensures SameConnections(p, NextRenew(p, r).value)
  {
    RenewingFrame(p, r);
    RenewingKeepsMap(p, r);
  }

  lemma ConnectionKeptIfSame(p: Process, q: Process, c: Conn)
    requires ConnectionInv(p, c) && SameConnections(p, q)
    ensures ConnectionInv(q, c)
  {
  }

  lemma ConnectionKeptByRenew(p: Process, r: RenewStep, c: Conn)
    requires FencingInv(p) && ConnectionInv(p, c) && NextRenew(p, r).Some?
    ensures ConnectionInv(NextRenew(p, r).value, c)
  {
    RenewingKeepsConnections(p, r);
    ConnectionKeptIfSame(p, NextRenew(p, r).value, c);
  }

  lemma ConnectionKept(p: Process, s: Step, c: Conn)
    requires FencingInv(p) && ConnectionInv(p, c) && Next(p, s).Some?
    ensures ConnectionInv(Next(p, s).value, c)
  {
    match s
    case Admitting(a) => ConnectionKeptByAccept(p, a, c);
    case Tunneling(d, t) => ConnectionKeptByTunnel(p, d, t, c);
    case Closing(x) => ConnectionKeptByTrip(p, x, c);
    case Renewing(r) => ConnectionKeptByRenew(p, r, c);
    case _ =>
  }

  lemma FencingKeptByRenew(p: Process, r: RenewStep)
    requires FencingInv(p) && NextRenew(p, r).Some?
    ensures FencingInv(NextRenew(p, r).value)
  {
  }

  lemma FencingKeptByTrip(p: Process, x: TripStep)
    requires FencingInv(p) && NextTrip(p, x).Some?
    ensures FencingInv(NextTrip(p, x).value)
  {
  }

  lemma FencingKeptByOthers(p: Process, s: Step)
    requires !s.Closing? && !s.Renewing? && !s.Watching? && !s.Advance?
    requires FencingInv(p) && Next(p, s).Some?
    ensures FencingInv(Next(p, s).value)
  {
    match s
    case Admitting(a) => FencingKeptByAccept(p, a);
    case Tunneling(c, t) => FencingKeptByTunnel(p, c, t);
    case _ =>
  }

  lemma FencingKeptByAccept(p: Process, a: AcceptStep)
    requires FencingInv(p) && NextAccept(p, a).Some?
    ensures FencingInv(NextAccept(p, a).value)
  {
  }

  lemma FencingKeptByTunnel(p: Process, c: Conn, t: TunnelStep)
    requires FencingInv(p) && NextTunnel(p, c, t).Some?
    ensures FencingInv(NextTunnel(p, c, t).value)
  {
  }

  lemma FencingKept(p: Process, s: Step)
    requires FencingInv(p) && Next(p, s).Some?
    ensures FencingInv(Next(p, s).value)
  {
    match s
    case Closing(x) => FencingKeptByTrip(p, x);
    case Renewing(r) => FencingKeptByRenew(p, r);
    case Watching(_, _) =>
    case Advance(_) =>
    case _ => FencingKeptByOthers(p, s);
  }

  lemma ConnectionsKept(p: Process, s: Step)
    requires ConnectionsInv(p) && Next(p, s).Some?
    ensures ConnectionsInv(Next(p, s).value)
  {
    FencingKept(p, s);
    forall c ensures ConnectionInv(Next(p, s).value, c) {
      ConnectionKept(p, s, c);
    }
  }

  ghost predicate StaysFenced(p: Process, q: Process) {
    p.f.fenced ==> q.f.fenced && q.f.connections <= p.f.connections
  }

  lemma AdmittingStaysFenced(p: Process, a: AcceptStep)
    requires NextAccept(p, a).Some?
    ensures StaysFenced(p, NextAccept(p, a).value)
  {
  }

  lemma TunnelingStaysFenced(p: Process, c: Conn, t: TunnelStep)
    requires NextTunnel(p, c, t).Some?
    ensures StaysFenced(p, NextTunnel(p, c, t).value)
  {
  }

  lemma RenewingStaysFenced(p: Process, r: RenewStep)
    requires NextRenew(p, r).Some?
    ensures StaysFenced(p, NextRenew(p, r).value)
  {
  }

  lemma StepStaysFenced(p: Process, s: Step)
    requires Next(p, s).Some?
    ensures StaysFenced(p, Next(p, s).value)
  {
    match s
    case Admitting(a) => AdmittingStaysFenced(p, a);
    case Tunneling(c, t) => TunnelingStaysFenced(p, c, t);
    case Renewing(r) => RenewingStaysFenced(p, r);
    case _ =>
  }

  /** Whatever the interleaving, over every run: fencing is final, and from then on no
      connection enters the shared map. */
  lemma {:induction false} FencedIsFinal(p: Process, more: seq<Step>)
    requires p.f.fenced && Execute(p, more).Some?
    ensures Execute(p, more).value.f.fenced
    ensures Execute(p, more).value.f.connections <= p.f.connections
  {
    if more != [] {
      FencedIsFinal(p, more[..|more| - 1]);
      StepStaysFenced(Execute(p, more[..|more| - 1]).value, more[|more| - 1]);
    }
  }

  /** Once `trip` has run its close loop, an accepted connection is closed, or still
      in the accept loop's hands and on its way to being closed there, or already
      removed by its own proxy goroutine, which had closed the upstream first. So no
      tunnel has both its sockets open. */
  lemma AfterTripConnectionsAreClosed(p: Process)
    requires ConnectionsInv(p) && p.closer.Tripped?
    ensures !p.listenerOpen
    ensures forall c :: c in p.open ==>
                          || InHand(p, c)
                          || (c in p.tunnels && p.tunnels[c].stage.ClosingClient? && !p.tunnels[c].upstreamOpen)
    ensures forall c :: c in p.tunnels && c in p.open ==> !p.tunnels[c].upstreamOpen
  {
    forall c
      ensures c in p.open ==>
                InHand(p, c) || (c in p.tunnels && p.tunnels[c].stage.ClosingClient? && !p.tunnels[c].upstreamOpen)
      ensures c in p.tunnels && c in p.open ==> !p.tunnels[c].upstreamOpen
    {
      assert ConnectionInv(p, c);
    }
  }

  /** In a fenced process the accept loop can only turn connections away. */
  lemma FencedTurnsAway(p: Process, a: AcceptStep)
    requires p.f.fenced && NextAccept(p, a).Some?
    ensures var q := NextAccept(p, a).value;
            && q.tunnels == p.tunnels && q.f == p.f
            && (a.CheckSource? || a.Admission? ==> q.acceptor.Rejecting?)
            && (a.Reject? ==> p.acceptor.conn !in q.open)
  {
  }

  // ------------------------------------------------------------------- receipts

  function ReceiptsOf(receipts: seq<Receipt>, c: Conn): nat {
    if receipts == [] then 0
    else ReceiptsOf(receipts[..|receipts| - 1], c) + (if receipts[|receipts| - 1].conn == c then 1 else 0)
  }

  lemma ReceiptsOfAppend(receipts: seq<Receipt>, r: Receipt, c: Conn)
    ensures ReceiptsOf(receipts + [r], c) == ReceiptsOf(receipts, c) + (if r.conn == c then 1 else 0)
  {
    assert (receipts + [r])[..|receipts|] == receipts;
  }

  /** One tunnel's bookkeeping: `TunnelClosed` stands for a reached upstream and
      only for that, no upstream is dialed without a deadline, and what is reported as
      expired authority is that there was none. */
  predicate TunnelOk(t: Tunnel) {
    && (t.dialed <==> t.result.TunnelClosed?)
    && (t.upstreamOpen ==> t.dialed)
    && (t.dialed || t.stage.Dialing? ==> t.deadline.Some?)
    && (t.stage.Dialing? ==> !t.dialed)
    && (t.stage.Spawned? || t.stage.Begun? ==> t.deadline.None? && t.result.AuthorityExpired?)
    && (t.stage.Spawned? <==> t.id == 0)
    && (t.stage.Copying? || t.stage.ClosingUpstream? ==> t.dialed)
    && (t.stage.Reporting? || Reported(t.stage) ==> (t.result.AuthorityExpired? <==> t.deadline.None?))
  }

  lemma ProgressKeepsTunnel(t: Tunnel, s: TunnelStep, f: Fields, clock: int, freshId: nat)
    requires TunnelOk(t) && freshId > 0 && Progress(t, s, f, clock, freshId).Some?
    ensures var n := Progress(t, s, f, clock, freshId).value;
            && TunnelOk(n)
            && (t.id == 0 <==> s.Begin?) && n.id == (if s.Begin? then freshId else t.id)
            && (t.deadline.Some? ==> n.deadline == t.deadline)
            && (Reported(t.stage) || t.stage.Reporting? ==> n.result == t.result)
  {
  }

  /** One receipt once the goroutine has passed that point, none before. */
  predicate TunnelInv(p: Process, c: Conn) {
    && ReceiptsOf(p.receipts, c) == (if c in p.tunnels && Reported(p.tunnels[c].stage) then 1 else 0)
    && (c in p.tunnels ==> TunnelOk(p.tunnels[c]) && p.tunnels[c].id <= p.nextID)
  }

  predicate ReceiptInv(p: Process, i: nat) {
    i < |p.receipts| ==>
      var r := p.receipts[i];
      && r.conn in p.tunnels && Reported(p.tunnels[r.conn].stage)
      && r.id == p.tunnels[r.conn].id && r.result == p.tunnels[r.conn].result
  }

  predicate DistinctIds(p: Process, c: Conn, d: Conn) {
    c != d && c in p.tunnels && d in p.tunnels && p.tunnels[c].id != 0 ==> p.tunnels[c].id != p.tunnels[d].id
  }

  ghost predicate ReceiptsInv(p: Process) {
    && (forall c :: TunnelInv(p, c))
    && (forall i: nat :: ReceiptInv(p, i))
    && (forall c, d :: DistinctIds(p, c, d))
  }

  ghost predicate SameTunnels(p: Process, q: Process) {
    && q.receipts == p.receipts && q.nextID == p.nextID
    && (q.tunnels == p.tunnels || (p.acceptor.Admitted? && q.tunnels == p.tunnels[p.acceptor.conn := Spawn()]))
  }

  lemma AdmittingKeepsTunnels(p: Process, a: AcceptStep)
    requires NextAccept(p, a).Some?
    ensures SameTunnels(p, NextAccept(p, a).value)
  {
  }

  lemma ClosingKeepsTunnels(p: Process, x: TripStep)
    requires NextTrip(p, x).Some?
    ensures SameTunnels(p, NextTrip(p, x).value)
  {
  }

  lemma RenewingKeepsTunnels(p: Process, r: RenewStep)
    requires NextRenew(p, r).Some?
    ensures SameTunnels(p, NextRenew(p, r).value)
  {
  }

  /** Only a tunnel's own steps and its admission change the tunnels and receipts. */
  lemma OtherStepsKeepTunnels(p: Process, s: Step)
    requires !s.Tunneling? && Next(p, s).Some?
    ensures SameTunnels(p, Next(p, s).value)
  {
    match s
    case Admitting(a) => AdmittingKeepsTunnels(p, a);
    case Closing(x) => ClosingKeepsTunnels(p, x);
    case Renewing(r) => RenewingKeepsTunnels(p, r);
    case _ =>
  }

  lemma ReceiptsKeptByTunnel(p: Process, d: Conn, s: TunnelStep)
    requires ReceiptsInv(p) && NextTunnel(p, d, s).Some?
    ensures ReceiptsInv(NextTunnel(p, d, s).value)
  {
    var q := NextTunnel(p, d, s).value;
    var t := p.tunnels[d];
    assert TunnelInv(p, d);
    ProgressKeepsStage(t, s, p.f, p.clock, p.nextID + 1);
    ProgressKeepsTunnel(t, s, p.f, p.clock, p.nextID + 1);
    forall c ensures TunnelInv(q, c) {
      assert TunnelInv(p, c);
      ReceiptsOfAppend(p.receipts, Receipt(d, t.id, t.result), c);
    }
    forall i: nat ensures ReceiptInv(q, i) {
      assert ReceiptInv(p, i);
    }
    forall c, e ensures DistinctIds(q, c, e) {
      assert DistinctIds(p, c, e) && TunnelInv(p, c) && TunnelInv(p, e);
    }
  }

  lemma ReceiptsKept(p: Process, s: Step)
    requires ConnectionsInv(p) && ReceiptsInv(p) && Next(p, s).Some?
    ensures ReceiptsInv(Next(p, s).value)
  {
    var q := Next(p, s).value;
    if s.Tunneling? {
      ReceiptsKeptByTunnel(p, s.c, s.t);
    } else {
      OtherStepsKeepTunnels(p, s);
      forall c ensures TunnelInv(q, c) {
        assert TunnelInv(p, c) && ConnectionInv(p, c);
      }
      forall i: nat ensures ReceiptInv(q, i) {
        assert ReceiptInv(p, i);
        if i < |p.receipts| {
          assert ConnectionInv(p, p.receipts[i].conn);
        }
      }
      forall c, d ensures DistinctIds(q, c, d) {
        assert DistinctIds(p, c, d) && ConnectionInv(p, c) && ConnectionInv(p, d);
      }
    }
  }

  /** A tunnel keeps the deadline it was opened with: no renewal extends it. */
  lemma TunnelDeadlineIsFixed(p: Process, s: Step, c: Conn)
    requires ConnectionsInv(p) && ReceiptsInv(p) && Next(p, s).Some?
    requires c in p.tunnels && p.tunnels[c].deadline.Some?
    ensures c in Next(p, s).value.tunnels && Next(p, s).value.tunnels[c].deadline == p.tunnels[c].deadline
  {
    assert TunnelInv(p, c) && ConnectionInv(p, c);
    if s.Tunneling? {
      if s.c == c {
        ProgressKeepsTunnel(p.tunnels[c], s.t, p.f, p.clock, p.nextID + 1);
      }
    } else {
      OtherStepsKeepTunnels(p, s);
    }
  }

  // ------------------------------------------------------------------ whole runs

  lemma {:induction false} RunsKeepConnections(clock: int, maxAge: int, steps: seq<Step>)
    requires Execute(Boot(clock, maxAge), steps).Some?
    ensures var p := Execute(Boot(clock, maxAge), steps).value;
            ConnectionsInv(p) && ReceiptsInv(p)
  {
    if steps == [] {
    } else {
      var before := steps[..|steps| - 1];
      RunsKeepConnections(clock, maxAge, before);
      var p := Execute(Boot(clock, maxAge), before).value;
      ConnectionsKept(p, steps[|steps| - 1]);
      ReceiptsKept(p, steps[|steps| - 1]);
    }
  }

  /** In every run: each finished connection has exactly one receipt, ids never
      repeat, and a receipt says closed exactly when the upstream was reached, and expired
      exactly when there was no authority to open a tunnel under. */
  lemma EveryConnectionHasOneReceipt(clock: int, maxAge: int, steps: seq<Step>)
    requires Execute(Boot(clock, maxAge), steps).Some?
    ensures var p := Execute(Boot(clock, maxAge), steps).value;
            && (forall c :: c in p.tunnels && p.tunnels[c].stage.Finished? ==> ReceiptsOf(p.receipts, c) == 1)
            && (forall c :: ReceiptsOf(p.receipts, c) <= 1)
            && (forall i, j :: 0 <= i < j < |p.receipts| && p.receipts[i].conn != p.receipts[j].conn ==>
                                 p.receipts[i].id != p.receipts[j].id)
            && (forall i :: 0 <= i < |p.receipts| ==>
                              && p.receipts[i].conn in p.tunnels
                              && (p.receipts[i].result.TunnelClosed? <==> p.tunnels[p.receipts[i].conn].dialed)
                              && (p.receipts[i].result.AuthorityExpired? <==>
                                    p.tunnels[p.receipts[i].conn].deadline.None?))
  {
    RunsKeepConnections(clock, maxAge, steps);
    var p := Execute(Boot(clock, maxAge), steps).value;
    forall c
      ensures c in p.tunnels && p.tunnels[c].stage.Finished? ==> ReceiptsOf(p.receipts, c) == 1
      ensures ReceiptsOf(p.receipts, c) <= 1
    {
      assert TunnelInv(p, c);
    }
    forall i, j | 0 <= i < j < |p.receipts| && p.receipts[i].conn != p.receipts[j].conn
      ensures p.receipts[i].id != p.receipts[j].id
    {
      assert ReceiptInv(p, i) && ReceiptInv(p, j);
      assert TunnelInv(p, p.receipts[i].conn) && DistinctIds(p, p.receipts[i].conn, p.receipts[j].conn);
    }
    forall i | 0 <= i < |p.receipts|
      ensures p.receipts[i].conn in p.tunnels
      ensures p.receipts[i].result.TunnelClosed? <==> p.tunnels[p.receipts[i].conn].dialed
      ensures p.receipts[i].result.AuthorityExpired? <==> p.tunnels[p.receipts[i].conn].deadline.None?
    {
      assert ReceiptInv(p, i) && TunnelInv(p, p.receipts[i].conn);
    }
  }
}
