/** What the copying goroutines of a tunnel can still do once the process is fenced: a chunk
    read before the client was closed may reach the signer, and nothing after it. */
module FenceTraffic {
  import opened FenceProxy
  import opened FenceProcess
  import opened FenceConnections

  predicate FlowOk(f: Flow) {
    f.delivered <= f.read <= f.delivered + 1
  }

  /** At most one chunk is in hand each way, and only a tunnel with an upstream has any. */
  predicate TrafficInv(p: Process, c: Conn) {
    && FlowOk(TrafficOf(p, c).toSigner) && FlowOk(TrafficOf(p, c).toClient)
    && (TrafficOf(p, c) != STILL ==> c in p.tunnels && p.tunnels[c].dialed)
  }

  ghost predicate TrafficsInv(p: Process) {
    forall c :: TrafficInv(p, c)
  }

  lemma OnlyMovesAreTraffic(p: Process, s: Step)
    requires Next(p, s).Some? && !s.Moving?
    ensures Next(p, s).value.traffic == p.traffic
  {
    match s
    case Admitting(a) =>
    case Closing(x) =>
    case Renewing(r) =>
    case _ =>
  }

  lemma MovesChangeTrafficOnly(p: Process, c: Conn, m: MoveStep)
    requires NextMove(p, c, m).Some?
    ensures NextMove(p, c, m).value == p.(traffic := p.traffic[c := TrafficOf(NextMove(p, c, m).value, c)])
    ensures forall d :: d != c ==> TrafficOf(NextMove(p, c, m).value, d) == TrafficOf(p, d)
  {
  }

  lemma TunnelStaysDialed(p: Process, s: Step, c: Conn)
    requires ConnectionsInv(p) && Next(p, s).Some? && c in p.tunnels
    ensures c in Next(p, s).value.tunnels
    ensures p.tunnels[c].dialed ==> Next(p, s).value.tunnels[c].dialed
  {
    assert ConnectionInv(p, c);
    if !s.Tunneling? {
      OtherStepsKeepTunnels(p, s);
    }
  }

  lemma TrafficKept(p: Process, s: Step, c: Conn)
    requires ConnectionsInv(p) && TrafficInv(p, c) && Next(p, s).Some?
    ensures TrafficInv(Next(p, s).value, c)
  {
    if s.Moving? {
      MovesChangeTrafficOnly(p, s.c, s.m);
    } else {
      OnlyMovesAreTraffic(p, s);
      if c in p.tunnels {
        TunnelStaysDialed(p, s, c);
      }
    }
  }

  lemma TrafficsKept(p: Process, s: Step)
    requires ConnectionsInv(p) && TrafficsInv(p) && Next(p, s).Some?
    ensures TrafficsInv(Next(p, s).value)
  {
    forall c ensures TrafficInv(Next(p, s).value, c) {
      TrafficKept(p, s, c);
    }
  }

  // ---------------------------------------------------------------- after the close loop

  /** The connection's state after the close loop, against what it was then: nothing more is
      read from a closed client, nothing more is written to a closed upstream, and there is no
      new tunnel. */
  predicate Stilled(p: Process, q: Process, c: Conn) {
    && q.closer.Tripped? && q.f.fenced
    && (c in p.tunnels <==> c in q.tunnels)
    && (c !in p.tunnels ==> TrafficOf(q, c) == TrafficOf(p, c))
    && (c in p.tunnels && c !in p.open ==>
          && c !in q.open && c in q.hosts
          && TrafficOf(q, c).toSigner.read == TrafficOf(p, c).toSigner.read
          && TrafficOf(q, c).toClient.delivered == TrafficOf(p, c).toClient.delivered)
    && (c in p.tunnels && c in p.open ==>
          && (q.tunnels[c].stage.ClosingClient? || q.tunnels[c].stage.Finished?) && !q.tunnels[c].upstreamOpen
          && TrafficOf(q, c).toSigner.delivered == TrafficOf(p, c).toSigner.delivered
          && TrafficOf(q, c).toClient.read == TrafficOf(p, c).toClient.read)
  }

  lemma StilledAtTrip(p: Process, c: Conn)
    requires ConnectionsInv(p) && p.closer.Tripped?
    ensures Stilled(p, p, c)
  {
    assert ConnectionInv(p, c);
  }

  lemma AdmittingKeepsStill(p: Process, q: Process, a: AcceptStep, c: Conn)
    requires Stilled(p, q, c) && NextAccept(q, a).Some?
    ensures Stilled(p, NextAccept(q, a).value, c)
  {
  }

  lemma TunnelingKeepsStill(p: Process, q: Process, d: Conn, t: TunnelStep, c: Conn)
    requires Stilled(p, q, c) && NextTunnel(q, d, t).Some?
    ensures Stilled(p, NextTunnel(q, d, t).value, c)
  {
    ProgressKeepsStage(q.tunnels[d], t, q.f, q.clock, q.nextID + 1);
  }

  lemma MovingKeepsStill(p: Process, q: Process, d: Conn, m: MoveStep, c: Conn)
    requires Stilled(p, q, c) && NextMove(q, d, m).Some?
    ensures Stilled(p, NextMove(q, d, m).value, c)
  {
    MovesChangeTrafficOnly(q, d, m);
  }

  lemma ClosingKeepsStill(p: Process, q: Process, x: TripStep, c: Conn)
    requires Stilled(p, q, c) && NextTrip(q, x).Some?
    ensures Stilled(p, NextTrip(q, x).value, c)
  {
  }

  lemma RenewingKeepsStill(p: Process, q: Process, r: RenewStep, c: Conn)
    requires Stilled(p, q, c) && FencingInv(q) && NextRenew(q, r).Some?
    ensures Stilled(p, NextRenew(q, r).value, c)
  {
  }

  lemma StaysStill(p: Process, q: Process, s: Step, c: Conn)
    requires Stilled(p, q, c) && FencingInv(q) && Next(q, s).Some?
    ensures Stilled(p, Next(q, s).value, c)
  {
    match s
    case Admitting(a) => AdmittingKeepsStill(p, q, a, c);
    case Tunneling(d, t) => TunnelingKeepsStill(p, q, d, t, c);
    case Moving(d, m) => MovingKeepsStill(p, q, d, m, c);
    case Closing(x) => ClosingKeepsStill(p, q, x, c);
    case Renewing(r) => RenewingKeepsStill(p, q, r, c);
    case _ =>
  }

  /** So at most the chunk in hand still reaches the signer. */
  lemma StilledDeliversTheChunkInHand(p: Process, q: Process, c: Conn)
    requires Stilled(p, q, c) && TrafficInv(p, c) && TrafficInv(q, c)
    ensures TrafficOf(q, c).toSigner.delivered <= TrafficOf(p, c).toSigner.read
    ensures TrafficOf(q, c).toSigner.delivered <= TrafficOf(p, c).toSigner.delivered + 1
  {
  }

  // ------------------------------------------------------------------ whole runs

  lemma {:induction false} RunsKeepTraffic(clock: int, maxAge: int, steps: seq<Step>)
    requires Execute(Boot(clock, maxAge), steps).Some?
    ensures var p := Execute(Boot(clock, maxAge), steps).value;
            ConnectionsInv(p) && TrafficsInv(p)
  {
    if steps != [] {
      var before := steps[..|steps| - 1];
      RunsKeepTraffic(clock, maxAge, before);
      var p := Execute(Boot(clock, maxAge), before).value;
      ConnectionsKept(p, steps[|steps| - 1]);
      TrafficsKept(p, steps[|steps| - 1]);
    }
  }

  /** From the end of the close loop on, over every continuation: no tunnel opens, a client the
      loop found open in the map is never read again nor written to, and on every tunnel no more
      reaches the signer than the one chunk that had been read before and not written yet. */
  lemma {:induction false} AfterTripOnlyTheChunkInHand(p: Process, more: seq<Step>)
    requires ConnectionsInv(p) && TrafficsInv(p) && p.closer.Tripped? && Execute(p, more).Some?
    ensures var q := Execute(p, more).value;
            && ConnectionsInv(q) && TrafficsInv(q)
            && (forall c :: Stilled(p, q, c))
            && (forall c :: TrafficOf(q, c).toSigner.delivered <= TrafficOf(p, c).toSigner.read
                            <= TrafficOf(p, c).toSigner.delivered + 1)
  {
    if more == [] {
      forall c ensures Stilled(p, p, c) && TrafficInv(p, c) && FlowOk(TrafficOf(p, c).toSigner) {
        StilledAtTrip(p, c);
      }
    } else {
      var n := |more| - 1;
      AfterTripOnlyTheChunkInHand(p, more[..n]);
      var q := Execute(p, more[..n]).value;
      ConnectionsKept(q, more[n]);
      TrafficsKept(q, more[n]);
      forall c ensures Stilled(p, Next(q, more[n]).value, c) && TrafficInv(p, c)
               ensures TrafficOf(Next(q, more[n]).value, c).toSigner.delivered <= TrafficOf(p, c).toSigner.read {
        StaysStill(p, q, more[n], c);
        StilledDeliversTheChunkInHand(p, Next(q, more[n]).value, c);
      }
    }
  }
}
