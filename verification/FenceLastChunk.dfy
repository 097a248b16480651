/** Exactly when a tripped fence still delivers a chunk to its signer, and a run in which it
    does. */
module FenceLastChunk {
  import opened Outcomes
  import opened FenceProxy
  import opened FenceProcess
  import opened FenceConnections
  import opened FenceAuthority
  import opened FenceTraffic
  import opened FenceTimeliness
  import opened FenceRuns

  /** Nothing more can reach the signer on this connection: there is no tunnel, or it is past its
      upstream for good, or its client is closed and nothing is in hand, or the upstream closed
      again, or the deadline over. */
  predicate Drained(p: Process, c: Conn) {
    && p.closer.Tripped? && p.f.fenced
    && (c in p.tunnels ==>
          var t := p.tunnels[c];
          || (!t.upstreamOpen && (t.stage.ClosingClient? || t.stage.Finished?))
          || (c !in p.open && c in p.hosts
              && (|| TrafficOf(p, c).toSigner.read == TrafficOf(p, c).toSigner.delivered
                  || (t.dialed && !t.upstreamOpen)
                  || (t.deadline.Some? && t.deadline.value <= p.clock))))
  }

  lemma AdmittingKeepsDrained(p: Process, a: AcceptStep, c: Conn)
    requires Drained(p, c) && NextAccept(p, a).Some?
    ensures Drained(NextAccept(p, a).value, c)
  {
  }

  lemma TunnelingKeepsDrained(p: Process, d: Conn, t: TunnelStep, c: Conn)
    requires Drained(p, c) && NextTunnel(p, d, t).Some? && (c in p.tunnels ==> TunnelOk(p.tunnels[c]))
    ensures Drained(NextTunnel(p, d, t).value, c)
  {
    if d == c {
      ProgressKeepsStage(p.tunnels[c], t, p.f, p.clock, p.nextID + 1);
      ProgressKeepsTunnel(p.tunnels[c], t, p.f, p.clock, p.nextID + 1);
      ProgressKeepsUpstreamClosed(p.tunnels[c], t, p.f, p.clock, p.nextID + 1);
    }
  }

  lemma ProgressKeepsUpstreamClosed(t: Tunnel, s: TunnelStep, f: Fields, clock: int, freshId: nat)
    requires TunnelOk(t) && Progress(t, s, f, clock, freshId).Some?
    ensures var n := Progress(t, s, f, clock, freshId).value;
      && (t.dialed ==> n.dialed)
      && (t.dialed && !t.upstreamOpen ==> !n.upstreamOpen)
      && (t.stage.ClosingClient? || t.stage.Finished? ==> n.upstreamOpen == t.upstreamOpen)
  {
  }

  lemma MovingKeepsDrained(p: Process, d: Conn, m: MoveStep, c: Conn)
    requires Drained(p, c) && NextMove(p, d, m).Some?
    ensures Drained(NextMove(p, d, m).value, c)
    ensures TrafficOf(NextMove(p, d, m).value, c).toSigner.delivered == TrafficOf(p, c).toSigner.delivered
  {
    MovesChangeTrafficOnly(p, d, m);
  }

  lemma ClosingKeepsDrained(p: Process, x: TripStep, c: Conn)
    requires Drained(p, c) && NextTrip(p, x).Some?
    ensures Drained(NextTrip(p, x).value, c)
  {
    ClosingFrame(p, x);
    if x.Trip? {
      TripFrame(p, x.caller);
    }
  }

  lemma RenewingKeepsDrained(p: Process, r: RenewStep, c: Conn)
    requires Drained(p, c) && NextRenew(p, r).Some?
    ensures Drained(NextRenew(p, r).value, c)
  {
    RenewingKeepsConnections(p, r);
    RenewingFrame(p, r);
  }

  /** Every step keeps a connection drained, and delivers nothing on it. */
  lemma StaysDrained(p: Process, s: Step, c: Conn)
    requires Drained(p, c) && (c in p.tunnels ==> TunnelOk(p.tunnels[c])) && Next(p, s).Some?
    ensures Drained(Next(p, s).value, c)
    ensures TrafficOf(Next(p, s).value, c).toSigner.delivered == TrafficOf(p, c).toSigner.delivered
  {
    if !s.Moving? {
      OnlyMovesAreTraffic(p, s);
    }
    match s
    case Admitting(a) => AdmittingKeepsDrained(p, a, c);
    case Tunneling(d, t) => TunnelingKeepsDrained(p, d, t, c);
    case Moving(d, m) => MovingKeepsDrained(p, d, m, c);
    case Closing(x) => ClosingKeepsDrained(p, x, c);
    case Renewing(r) => RenewingKeepsDrained(p, r, c);
    case _ =>
  }

  /** After the close loop a connection can deliver now or never. */
  lemma DeliversNowOrNever(p: Process, c: Conn)
    requires ConnectionsInv(p) && TrafficsInv(p) && ReceiptsInv(p) && p.closer.Tripped?
    ensures NextMove(p, c, Deliver(ToSigner)).Some? || Drained(p, c)
  {
    assert ConnectionInv(p, c) && TrafficInv(p, c) && TunnelInv(p, c);
  }

  ghost predicate CopyingInv(p: Process) {
    ConnectionsInv(p) && TrafficsInv(p) && ReceiptsInv(p)
  }

  lemma CopyingKept(p: Process, s: Step)
    requires CopyingInv(p) && Next(p, s).Some?
    ensures CopyingInv(Next(p, s).value)
  {
    ConnectionsKept(p, s);
    TrafficsKept(p, s);
    ReceiptsKept(p, s);
  }

  lemma {:induction false} DrainedForever(p: Process, more: seq<Step>, c: Conn)
    requires CopyingInv(p) && Drained(p, c) && Execute(p, more).Some?
    ensures var q := Execute(p, more).value;
      CopyingInv(q) && Drained(q, c)
      && TrafficOf(q, c).toSigner.delivered == TrafficOf(p, c).toSigner.delivered
  {
    if more != [] {
      var n := |more| - 1;
      DrainedForever(p, more[..n], c);
      var q := Execute(p, more[..n]).value;
      assert TunnelInv(q, c);
      CopyingKept(q, more[n]);
      StaysDrained(q, more[n], c);
    }
  }

  /** The continuation delivers to the signer on this connection. */
  ghost predicate Reaches(p: Process, more: seq<Step>, c: Conn) {
    && Execute(p, more).Some?
    && TrafficOf(Execute(p, more).value, c).toSigner.delivered > TrafficOf(p, c).toSigner.delivered
  }

  lemma DeliveryReaches(p: Process, c: Conn)
    requires NextMove(p, c, Deliver(ToSigner)).Some?
    ensures Reaches(p, [Moving(c, Deliver(ToSigner))], c)
  {
    var more := [Moving(c, Deliver(ToSigner))];
    assert more[..0] == [];
    assert Execute(p, more[..0]) == Some(p);
  }

  /** Exactly when something still reaches the signer after the close loop: a chunk is in hand, the
      upstream is open and the tunnel's deadline ahead. */
  lemma DeliversAfterTripExactly(p: Process, c: Conn)
    requires ConnectionsInv(p) && TrafficsInv(p) && ReceiptsInv(p) && p.closer.Tripped?
    ensures (exists more :: Reaches(p, more, c)) <==> NextMove(p, c, Deliver(ToSigner)).Some?
    ensures NextMove(p, c, Deliver(ToSigner)).Some? <==>
      && c in p.tunnels && p.tunnels[c].upstreamOpen
      && p.tunnels[c].deadline.Some? && p.clock < p.tunnels[c].deadline.value
      && TrafficOf(p, c).toSigner.read > TrafficOf(p, c).toSigner.delivered
  {
    assert TunnelInv(p, c);
    DeliversNowOrNever(p, c);
    if NextMove(p, c, Deliver(ToSigner)).Some? {
      DeliveryReaches(p, c);
    } else {
      forall more | Execute(p, more).Some? ensures !Reaches(p, more, c) {
        DrainedForever(p, more, c);
      }
    }
  }

  // ---- A run in which it happens

  ghost predicate HoldsChunk(p: Process, c: Conn) {
    && !p.f.fenced && p.f.connections == {c} && !p.acceptor.NotStarted? && p.closer.Untripped?
    && Copies(p, c) && p.tunnels[c].upstreamOpen && TrafficOf(p, c).toSigner == Flow(1, 0)
  }

  lemma ReadChunk(start: Process, c: Conn) returns (steps: seq<Step>, p: Process)
    requires start == Boot(0, 10)
    ensures Execute(start, steps) == Some(p) && HoldsChunk(p, c)
  {
    var o, d;
    steps, o := StartOnce(0, 10, "u", "1", Announced(0, 100));
    steps, p := ClientGetsIn(start, steps, o, "1", c);
    steps, p, d := TunnelIsDialed(start, steps, o, p, "1", c);
    steps, p := TunnelIsOpened(start, steps, o, p, "1", c, d);
    steps, p := OneMore(start, steps, p, Moving(c, Read(ToSigner)));
  }

  lemma TripAll(start: Process, steps: seq<Step>, p: Process, c: Conn) returns (more: seq<Step>, q: Process)
    requires Execute(start, steps) == Some(p) && HoldsChunk(p, c)
    ensures Execute(start, more) == Some(q) && q.closer.Tripped? && c !in q.open
    ensures NextMove(q, c, Deliver(ToSigner)).Some?
  {
    more, q := OneMore(start, steps, p, Closing(Trip(Outside)));
    more, q := OneMore(start, more, q, Closing(CloseListener));
    more, q := OneMore(start, more, q, Closing(CloseConnection(c)));
    assert q.closer == ClosingConnections({});
    more, q := OneMore(start, more, q, Closing(FinishTrip));
  }

  /** A run whose close loop has finished, with the client closed, and after which a chunk still
      reaches the signer. */
  lemma ChunkAfterTrip(c: Conn) returns (steps: seq<Step>, p: Process, more: seq<Step>)
    ensures Execute(Boot(0, 10), steps) == Some(p) && p.closer.Tripped? && c !in p.open
    ensures Reaches(p, more, c)
  {
    steps, p := ReadChunk(Boot(0, 10), c);
    steps, p := TripAll(Boot(0, 10), steps, p, c);
    DeliveryReaches(p, c);
    more := [Moving(c, Deliver(ToSigner))];
  }
}
