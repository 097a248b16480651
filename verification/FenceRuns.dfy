/** Runs that a fence can take: any series of renewals under one identity, on any legal schedule,
    and any number of the client's connections, each served to its end. */
module FenceRuns {
  import opened Outcomes
  import opened LeaseClient
  import opened FenceProxy
  import opened FenceProcess
  import opened FenceConnections
  import opened FenceAuthority
  import opened FenceTimeliness
  import opened RenewalTiming

  // ---- Renewals

  /** A renewal goes on to the Lease exactly when it observes the first identity or the same one. */
  lemma SameIdentityIsAccepted(p: Process, uid: string, ip: string)
    requires p.renewer.Quiet? && uid != "" && ip != ""
    ensures NextRenew(p, Observe(uid, ip)) ==
      Some(if p.f.clientUID == "" || (p.f.clientUID == uid && p.f.clientIP == ip)
           then p.(f := p.f.(clientUID := uid, clientIP := ip), renewer := Leasing)
           else p.(renewer := Failed))
  {
  }

  lemma AnnouncementsGrow(start: Process, steps: seq<Step>, p: Process, s: Step) returns (more: seq<Step>, q: Process)
    requires Execute(start, steps) == Some(p) && Next(p, s).Some?
    ensures more == steps + [s] && q == Next(p, s).value && Execute(start, more) == Some(q)
    ensures Announcements(start, more) == Announcements(start, steps) + AnnouncedBy(p, s)
  {
    more, q := OneMore(start, steps, p, s);
    assert more[..|more| - 1] == steps;
  }

  /** Started, unfenced, with the identity pinned and the next renewal due. */
  predicate Renewable(p: Process, uid: string, ip: string) {
    p.renewer.Quiet? && !p.acceptor.NotStarted? && !p.f.fenced && p.f.clientUID == uid && p.f.clientIP == ip
  }

  /** Accepting, with authority ahead, for the pinned client. */
  predicate Serving(p: Process, ip: string) {
    && p.acceptor.Accepting? && p.listenerOpen && !p.f.fenced
    && ip != "" && p.f.clientIP == ip && p.f.downstreamIP in {"", ip}
    && p.f.maxConnectionAge > 0 && p.f.authorityDeadline.Some? && p.clock < p.f.authorityDeadline.value
  }

  lemma AskAgain(start: Process, steps: seq<Step>, p: Process, uid: string, ip: string, a: Announced)
    returns (more: seq<Step>, q: Process)
    requires Execute(start, steps) == Some(p) && Renewable(p, uid, ip) && uid != "" && ip != "" && p.clock <= a.at
    ensures Execute(start, more) == Some(q) && q == p.(clock := a.at, renewer := Granted(a.deadline))
    ensures Announcements(start, more) == Announcements(start, steps)
  {
    more, q := AnnouncementsGrow(start, steps, p, Renewing(Observe(uid, ip)));
    more, q := AnnouncementsGrow(start, more, q, Renewing(Grant(a.deadline)));
    more, q := AnnouncementsGrow(start, more, q, Advance(a.at));
  }

  /** One renewal whose deadline is announced at the given instant. */
  lemma RenewOnce(start: Process, steps: seq<Step>, p: Process, uid: string, ip: string, a: Announced)
    returns (more: seq<Step>, q: Process)
    requires Execute(start, steps) == Some(p) && Renewable(p, uid, ip) && uid != "" && ip != "" && p.clock <= a.at
    ensures Execute(start, more) == Some(q) && Renewable(q, uid, ip) && q.clock == a.at
    ensures q.f == p.f.(authorityDeadline := Some(a.deadline), deadlineVersion := p.f.deadlineVersion + 1)
    ensures q == p.(clock := a.at, f := q.f, watchdogs := q.watchdogs)
    ensures Announcements(start, more) == Announcements(start, steps) + [a]
  {
    more, q := AskAgain(start, steps, p, uid, ip, a);
    more, q := AnnouncementsGrow(start, more, q, Renewing(Announce));
    more, q := AnnouncementsGrow(start, more, q, Renewing(Arm));
  }

  lemma AskFirst(clock: int, maxAge: int, uid: string, ip: string, a: Announced)
    returns (more: seq<Step>, q: Process)
    requires uid != "" && ip != "" && clock <= a.at
    ensures Execute(Boot(clock, maxAge), more) == Some(q) && Announcements(Boot(clock, maxAge), more) == []
    ensures q == Boot(a.at, maxAge).(f := Fresh(maxAge).(clientUID := uid, clientIP := ip),
                                     renewer := Granted(a.deadline))
  {
    var start := Boot(clock, maxAge);
    more, q := AnnouncementsGrow(start, [], start, Renewing(Observe(uid, ip)));
    more, q := AnnouncementsGrow(start, more, q, Renewing(Grant(a.deadline)));
    more, q := AnnouncementsGrow(start, more, q, Advance(a.at));
  }

  /** Start-up with its first acquisition. */
  lemma StartOnce(clock: int, maxAge: int, uid: string, ip: string, a: Announced)
    returns (more: seq<Step>, q: Process)
    requires uid != "" && ip != "" && clock <= a.at < a.deadline
    ensures Execute(Boot(clock, maxAge), more) == Some(q) && Renewable(q, uid, ip) && q.clock == a.at
    ensures q.f.authorityDeadline == Some(a.deadline) && Serving(q, ip) && q.hosts == map[] && q.open == {}
    ensures q.f.connections == {} && q.traffic == map[] && q.receipts == [] && q.nextID == 0
    ensures q.tunnels == map[] && q.closer.Untripped?
    ensures Announcements(Boot(clock, maxAge), more) == [a]
  {
    var start := Boot(clock, maxAge);
    more, q := AskFirst(clock, maxAge, uid, ip, a);
    more, q := AnnouncementsGrow(start, more, q, Renewing(StartListener(true)));
    more, q := AnnouncementsGrow(start, more, q, Renewing(Announce));
    more, q := AnnouncementsGrow(start, more, q, Renewing(Arm));
  }

  ghost predicate InTurn(clock: int, announced: seq<Announced>) {
    && (announced != [] ==> clock <= announced[0].at < announced[0].deadline)
    && (forall i :: 0 < i < |announced| ==> announced[i - 1].at <= announced[i].at)
  }

  /** After its announcements the fence is up and its next renewal is accepted. */
  predicate StandsRenewed(p: Process, uid: string, ip: string, last: Announced) {
    Renewable(p, uid, ip) && p.clock == last.at && p.f.authorityDeadline == Some(last.deadline)
  }

  lemma OneMoreRenewal(start: Process, steps: seq<Step>, p: Process, uid: string, ip: string, wanted: seq<Announced>)
    returns (more: seq<Step>, q: Process)
    requires uid != "" && ip != "" && |wanted| > 1 && InTurn(start.clock, wanted)
    requires Execute(start, steps) == Some(p) && StandsRenewed(p, uid, ip, wanted[|wanted| - 2])
    requires Announcements(start, steps) == wanted[..|wanted| - 1]
    ensures Execute(start, more) == Some(q) && StandsRenewed(q, uid, ip, wanted[|wanted| - 1])
    ensures Announcements(start, more) == wanted
  {
    more, q := RenewOnce(start, steps, p, uid, ip, wanted[|wanted| - 1]);
    assert wanted == wanted[..|wanted| - 1] + [wanted[|wanted| - 1]];
  }

  /** Any series of announcements, of any length, is that of a run in which the fence stays
      unfenced and its next renewal is accepted: only the first has to lie ahead. */
  lemma {:induction false} AnyRenewals(clock: int, maxAge: int, uid: string, ip: string, wanted: seq<Announced>)
    returns (steps: seq<Step>, p: Process)
    requires uid != "" && ip != "" && wanted != [] && InTurn(clock, wanted)
    ensures Execute(Boot(clock, maxAge), steps) == Some(p) && Announcements(Boot(clock, maxAge), steps) == wanted
    ensures StandsRenewed(p, uid, ip, wanted[|wanted| - 1])
    decreases |wanted|
  {
    if |wanted| == 1 {
      steps, p := StartOnce(clock, maxAge, uid, ip, wanted[0]);
      assert wanted == [wanted[0]];
    } else {
      steps, p := AnyRenewals(clock, maxAge, uid, ip, wanted[..|wanted| - 1]);
      steps, p := OneMoreRenewal(Boot(clock, maxAge), steps, p, uid, ip, wanted);
    }
  }

  /** What a fence on the schedule announces. */
  function Planned(c: Config, duration: int, s: Schedule): (announced: seq<Announced>)
    ensures |announced| == 1 + |s.later|
  {
    [Announced(s.first.done, DeadlineOf(c, duration, s.first))]
    + seq(|s.later|, i requires 0 <= i < |s.later| =>
            Announced(s.later[i].done, DeadlineOf(c, duration, s.later[i])))
  }

  lemma PlannedInTurn(c: Config, listenDelay: int, duration: int, s: Schedule)
    requires ValidConfig(c) && listenDelay >= 0 && Legal(c, listenDelay, s) && duration > c.timeout + c.margin
    ensures InTurn(s.first.start, Planned(c, duration, s)) && OnSchedule(c, duration, s, Planned(c, duration, s))
    ensures var last := Planned(c, duration, s)[|s.later|];
      last.at < last.deadline
  {
    var announced := Planned(c, duration, s);
    forall i | 0 < i < |announced| ensures announced[i - 1].at <= announced[i].at {
      assert InTime(c, s.later[i - 1]);
      if i > 1 {
        assert s.later[i - 1].start == NextStart(s.created, c.poll, s.later[i - 2]);
      }
    }
    if s.later != [] {
      assert InTime(c, s.later[|s.later| - 1]);
    }
  }

  /** Every legal schedule is kept by a run: with a duration that covers its renewals the fence
      announces all of them and no watchdog trips. */
  lemma EveryScheduleIsKept(c: Config, listenDelay: int, duration: int, s: Schedule, maxAge: int,
                            uid: string, ip: string)
    returns (steps: seq<Step>, p: Process)
    requires ValidConfig(c) && listenDelay >= 0 && Legal(c, listenDelay, s) && uid != "" && ip != ""
    requires duration > c.poll + 4 * c.timeout + listenDelay + c.margin
    requires duration > Max(c.poll, c.timeout) + 3 * c.timeout + c.margin
    ensures Execute(Boot(s.first.start, maxAge), steps) == Some(p) && !p.f.fenced
    ensures Announcements(Boot(s.first.start, maxAge), steps) == Planned(c, duration, s)
    ensures NoneExpired(p) && forall i :: 0 <= i < |steps| ==> !WatchdogTrip(steps[i])
  {
    PlannedInTurn(c, listenDelay, duration, s);
    steps, p := AnyRenewals(s.first.start, maxAge, uid, ip, Planned(c, duration, s));
    OnScheduleNoWatchdogTrips(c, listenDelay, duration, s, s.first.start, maxAge, steps);
  }

  // ---- Connections

  /** The connection is a tunnel at the given stage, everything else stands as it stood. */
  predicate Serves(p: Process, q: Process, ip: string, c: Conn, stage: Stage, chunks: nat, deadline: Option<int>) {
    && Serving(p, ip) && Serving(q, ip) && c in q.tunnels && c !in p.f.connections && c !in p.open
    && q.tunnels[c] == Tunnel(stage, if stage.Spawned? then 0 else p.nextID + 1, deadline, stage.Copying?,
                              stage.Copying?, if stage.Copying? then TunnelClosed else AuthorityExpired)
    && q == p.(f := p.f.(connections := p.f.connections + {c}, downstreamIP := ip), hosts := p.hosts[c := ip],
               open := p.open + {c}, tunnels := p.tunnels[c := q.tunnels[c]], traffic := q.traffic,
               nextID := if stage.Spawned? then p.nextID else p.nextID + 1)
    && q.traffic - {c} == p.traffic - {c}
    && TrafficOf(q, c) == Traffic(Flow(chunks, chunks), Flow(chunks, chunks))
  }

  /** The process has not met the connection. */
  predicate Unknown(p: Process, c: Conn) {
    c !in p.hosts && c !in p.traffic && c !in p.f.connections && c !in p.open
  }

  /** The connection passes the source check, also if the client has connected before. */
  lemma ClientPasses(start: Process, steps: seq<Step>, p: Process, ip: string, c: Conn)
    returns (more: seq<Step>, q: Process)
    requires Execute(start, steps) == Some(p) && Serving(p, ip) && Unknown(p, c)
    ensures Execute(start, more) == Some(q)
    ensures q == p.(f := p.f.(downstreamIP := ip), acceptor := Admitted(c), hosts := p.hosts[c := ip],
                    open := p.open + {c})
  {
    more, q := OneMore(start, steps, p, Admitting(Accept(c, ip)));
    more, q := OneMore(start, more, q, Admitting(CheckSource));
  }

  lemma ClientIsAdmitted(start: Process, steps: seq<Step>, p: Process, c: Conn)
    returns (more: seq<Step>, q: Process)
    requires Execute(start, steps) == Some(p) && p.acceptor == Admitted(c) && !p.f.fenced
    ensures Execute(start, more) == Some(q)
    ensures q == p.(f := p.f.(connections := p.f.connections + {c}), acceptor := Accepting,
                    tunnels := p.tunnels[c := Spawn()])
  {
    more, q := OneMore(start, steps, p, Admitting(Admission));
  }

  /** The pinned client gets in. */
  lemma ClientGetsIn(start: Process, steps: seq<Step>, p: Process, ip: string, c: Conn)
    returns (more: seq<Step>, q: Process)
    requires Execute(start, steps) == Some(p) && Serving(p, ip) && Unknown(p, c)
    ensures Execute(start, more) == Some(q) && Serves(p, q, ip, c, Spawned, 0, None)
  {
    more, q := ClientPasses(start, steps, p, ip, c);
    more, q := ClientIsAdmitted(start, more, q, c);
  }

  lemma TunnelBegins(start: Process, steps: seq<Step>, p: Process, c: Conn)
    returns (more: seq<Step>, q: Process)
    requires Execute(start, steps) == Some(p) && c in p.tunnels && p.tunnels[c].stage.Spawned?
    ensures Execute(start, more) == Some(q)
    ensures q == p.(tunnels := p.tunnels[c := p.tunnels[c].(stage := Begun, id := p.nextID + 1)],
                    nextID := p.nextID + 1)
  {
    more, q := OneMore(start, steps, p, Tunneling(c, Begin));
  }

  lemma TunnelIsBounded(start: Process, steps: seq<Step>, p: Process, c: Conn, d: int)
    returns (more: seq<Step>, q: Process)
    requires Execute(start, steps) == Some(p) && c in p.tunnels && p.tunnels[c].stage.Begun?
    requires ConnectionDeadline(p.f, p.clock) == Some(d)
    ensures Execute(start, more) == Some(q)
    ensures q == p.(tunnels := p.tunnels[c := p.tunnels[c].(stage := Dialing, deadline := Some(d))])
  {
    more, q := OneMore(start, steps, p, Tunneling(c, Bound(p.clock)));
  }

  lemma TunnelIsDialed(start: Process, steps: seq<Step>, o: Process, p: Process, ip: string, c: Conn)
    returns (more: seq<Step>, q: Process, d: int)
    requires Execute(start, steps) == Some(p) && Serves(o, p, ip, c, Spawned, 0, None)
    ensures Execute(start, more) == Some(q) && Serves(o, q, ip, c, Dialing, 0, Some(d)) && q.clock < d
  {
    ConnectionDeadlineIsBounded(p.f, p.clock);
    d := ConnectionDeadline(p.f, p.clock).value;
    more, q := TunnelBegins(start, steps, p, c);
    more, q := TunnelIsBounded(start, more, q, c, d);
  }

  lemma TunnelIsOpened(start: Process, steps: seq<Step>, o: Process, p: Process, ip: string, c: Conn, d: int)
    returns (more: seq<Step>, q: Process)
    requires Execute(start, steps) == Some(p) && Serves(o, p, ip, c, Dialing, 0, Some(d))
    ensures Execute(start, more) == Some(q) && Serves(o, q, ip, c, Copying, 0, Some(d))
  {
    more, q := OneMore(start, steps, p, Tunneling(c, Dial(true)));
  }

  lemma ChunkToSigner(start: Process, steps: seq<Step>, p: Process, c: Conn, n: nat)
    returns (more: seq<Step>, q: Process)
    requires Execute(start, steps) == Some(p) && Copies(p, c) && p.tunnels[c].upstreamOpen && c in p.open
    requires TrafficOf(p, c).toSigner == Flow(n, n)
    ensures Execute(start, more) == Some(q)
    ensures q == p.(traffic := p.traffic[c := TrafficOf(p, c).(toSigner := Flow(n + 1, n + 1))])
  {
    more, q := OneMore(start, steps, p, Moving(c, Read(ToSigner)));
    more, q := OneMore(start, more, q, Moving(c, Deliver(ToSigner)));
  }

  lemma ChunkToClient(start: Process, steps: seq<Step>, p: Process, c: Conn, n: nat)
    returns (more: seq<Step>, q: Process)
    requires Execute(start, steps) == Some(p) && Copies(p, c) && p.tunnels[c].upstreamOpen && c in p.open
    requires TrafficOf(p, c).toClient == Flow(n, n)
    ensures Execute(start, more) == Some(q)
    ensures q == p.(traffic := p.traffic[c := TrafficOf(p, c).(toClient := Flow(n + 1, n + 1))])
  {
    more, q := OneMore(start, steps, p, Moving(c, Read(ToClient)));
    more, q := OneMore(start, more, q, Moving(c, Deliver(ToClient)));
  }

  /** One chunk more in each direction. */
  lemma ChunkIsCopied(start: Process, steps: seq<Step>, o: Process, p: Process, ip: string, c: Conn, n: nat, d: int)
    returns (more: seq<Step>, q: Process)
    requires Execute(start, steps) == Some(p) && Serves(o, p, ip, c, Copying, n, Some(d)) && p.clock < d
    ensures Execute(start, more) == Some(q) && Serves(o, q, ip, c, Copying, n + 1, Some(d)) && q.clock == p.clock
  {
    more, q := ChunkToSigner(start, steps, p, c, n);
    more, q := ChunkToClient(start, more, q, c, n);
  }

  lemma {:induction false} ChunksAreCopied(start: Process, steps: seq<Step>, o: Process, p: Process, ip: string,
                                           c: Conn, n: nat, d: int)
    returns (more: seq<Step>, q: Process)
    requires Execute(start, steps) == Some(p) && Serves(o, p, ip, c, Copying, 0, Some(d)) && p.clock < d
    ensures Execute(start, more) == Some(q) && Serves(o, q, ip, c, Copying, n, Some(d)) && q.clock == p.clock
  {
    if n == 0 {
      more, q := steps, p;
    } else {
      more, q := ChunksAreCopied(start, steps, o, p, ip, c, n - 1, d);
      more, q := ChunkIsCopied(start, more, o, q, ip, c, n - 1, d);
    }
  }

  /** The connection has been served: reported as closed, gone from the map, both sockets closed. */
  predicate Served(p: Process, q: Process, ip: string, c: Conn, chunks: nat) {
    && Serving(q, ip) && c in q.tunnels && q.tunnels[c].stage.Finished? && !q.tunnels[c].upstreamOpen
    && q == p.(f := p.f.(downstreamIP := ip), hosts := p.hosts[c := ip], tunnels := p.tunnels[c := q.tunnels[c]],
               traffic := q.traffic, receipts := p.receipts + [Receipt(c, p.nextID + 1, TunnelClosed)],
               nextID := p.nextID + 1)
    && q.traffic - {c} == p.traffic - {c}
    && TrafficOf(q, c) == Traffic(Flow(chunks, chunks), Flow(chunks, chunks))
  }

  lemma UpstreamCloses(start: Process, steps: seq<Step>, p: Process, c: Conn)
    returns (more: seq<Step>, q: Process)
    requires Execute(start, steps) == Some(p) && c in p.tunnels && p.tunnels[c].stage.ClosingUpstream?
    ensures Execute(start, more) == Some(q)
    ensures q == p.(tunnels := p.tunnels[c := p.tunnels[c].(stage := Reporting, upstreamOpen := false)])
  {
    more, q := OneMore(start, steps, p, Tunneling(c, Unwind));
  }

  lemma CopyingEnds(start: Process, steps: seq<Step>, p: Process, c: Conn)
    returns (more: seq<Step>, q: Process)
    requires Execute(start, steps) == Some(p) && c in p.tunnels && p.tunnels[c].stage.Copying?
    ensures Execute(start, more) == Some(q)
    ensures q == p.(tunnels := p.tunnels[c := p.tunnels[c].(stage := Reporting, upstreamOpen := false)])
  {
    more, q := OneMore(start, steps, p, Tunneling(c, EndCopy));
    more, q := UpstreamCloses(start, more, q, c);
  }

  lemma TunnelReports(start: Process, steps: seq<Step>, p: Process, c: Conn)
    returns (more: seq<Step>, q: Process)
    requires Execute(start, steps) == Some(p) && c in p.tunnels && p.tunnels[c].stage.Reporting?
    ensures Execute(start, more) == Some(q)
    ensures q == p.(tunnels := p.tunnels[c := p.tunnels[c].(stage := Leaving)],
                    receipts := p.receipts + [Receipt(c, p.tunnels[c].id, p.tunnels[c].result)])
  {
    more, q := OneMore(start, steps, p, Tunneling(c, Unwind));
  }

  lemma ReportAndLeave(start: Process, steps: seq<Step>, p: Process, c: Conn)
    returns (more: seq<Step>, q: Process)
    requires Execute(start, steps) == Some(p) && c in p.tunnels && p.tunnels[c].stage.Reporting?
    ensures Execute(start, more) == Some(q)
    ensures q == p.(tunnels := p.tunnels[c := p.tunnels[c].(stage := Finished)], open := p.open - {c},
                    f := p.f.(connections := p.f.connections - {c}),
                    receipts := p.receipts + [Receipt(c, p.tunnels[c].id, p.tunnels[c].result)])
  {
    more, q := TunnelReports(start, steps, p, c);
    more, q := OneMore(start, more, q, Tunneling(c, Unwind));
    more, q := OneMore(start, more, q, Tunneling(c, Unwind));
  }

  /** A tunnel under no authority is given up at once and reported as expired. */
  lemma LapsedIsReported(p: Process, c: Conn) returns (steps: seq<Step>, q: Process)
    requires c in p.tunnels && p.tunnels[c].stage.Begun? && TunnelOk(p.tunnels[c])
    requires p.f.authorityDeadline.None? || p.f.authorityDeadline.value <= p.clock || p.f.maxConnectionAge <= 0
    ensures Execute(p, steps) == Some(q) && c in q.tunnels && q.tunnels[c].stage.Finished?
    ensures q.receipts == p.receipts + [Receipt(c, p.tunnels[c].id, AuthorityExpired)]
    ensures q.open == p.open - {c} && q.f.connections == p.f.connections - {c}
  {
    steps, q := OneMore(p, [], p, Tunneling(c, Bound(p.clock)));
    steps, q := ReportAndLeave(p, steps, q, c);
  }

  /** A dial that fails is reported as failed, and the client closed. */
  lemma FailedDialIsReported(p: Process, c: Conn) returns (steps: seq<Step>, q: Process)
    requires c in p.tunnels && p.tunnels[c].stage.Dialing?
    ensures Execute(p, steps) == Some(q) && c in q.tunnels && q.tunnels[c].stage.Finished?
    ensures q.receipts == p.receipts + [Receipt(c, p.tunnels[c].id, UpstreamDialFailed)]
    ensures q.open == p.open - {c} && q.f.connections == p.f.connections - {c}
  {
    steps, q := OneMore(p, [], p, Tunneling(c, Dial(false)));
    steps, q := ReportAndLeave(p, steps, q, c);
  }

  /** A connection that is turned away is closed, and the next one accepted. */
  lemma OthersAreTurnedAway(p: Process, c: Conn, host: string) returns (steps: seq<Step>, q: Process)
    requires p.acceptor.Accepting? && p.listenerOpen && c !in p.hosts && c !in p.open
    requires p.f.fenced || host == "" || host != p.f.clientIP
    ensures Execute(p, steps) == Some(q) && q == p.(hosts := p.hosts[c := host])
  {
    steps, q := OneMore(p, [], p, Admitting(Accept(c, host)));
    steps, q := OneMore(p, steps, q, Admitting(CheckSource));
    steps, q := OneMore(p, steps, q, Admitting(Reject));
    assert q.open == p.open;
  }

  lemma TunnelIsClosed(start: Process, steps: seq<Step>, o: Process, p: Process, ip: string, c: Conn, n: nat, d: int)
    returns (more: seq<Step>, q: Process)
    requires Execute(start, steps) == Some(p) && Serves(o, p, ip, c, Copying, n, Some(d))
    ensures Execute(start, more) == Some(q) && Served(o, q, ip, c, n)
  {
    more, q := CopyingEnds(start, steps, p, c);
    more, q := ReportAndLeave(start, more, q, c);
    assert q.open == o.open && q.f.connections == o.f.connections;
  }

  /** While it is serving, a fence serves the pinned client's next connection to its end, with any
      number of chunks in each direction, and is then serving as before. */
  lemma ClientIsServed(start: Process, steps: seq<Step>, p: Process, ip: string, c: Conn, chunks: nat)
    returns (more: seq<Step>, q: Process)
    requires Execute(start, steps) == Some(p) && Serving(p, ip) && Unknown(p, c)
    ensures Execute(start, more) == Some(q) && Served(p, q, ip, c, chunks)
  {
    var d;
    more, q := ClientGetsIn(start, steps, p, ip, c);
    more, q, d := TunnelIsDialed(start, more, p, q, ip, c);
    more, q := TunnelIsOpened(start, more, p, q, ip, c, d);
    more, q := ChunksAreCopied(start, more, p, q, ip, c, chunks, d);
    more, q := TunnelIsClosed(start, more, p, q, ip, c, chunks, d);
  }

  /** One receipt of a reached upstream per connection, in order. */
  predicate ReportsEach(receipts: seq<Receipt>, conns: seq<Conn>) {
    && |receipts| == |conns|
    && forall i :: 0 <= i < |conns| ==> receipts[i] == Receipt(conns[i], i + 1, TunnelClosed)
  }

  lemma OthersStayUnknown(p: Process, q: Process, ip: string, c: Conn, chunks: nat, other: Conn)
    requires Served(p, q, ip, c, chunks) && Unknown(p, other) && other != c
    ensures Unknown(q, other)
  {
    assert other in q.traffic ==> other in q.traffic - {c};
  }

  /** However many connections the pinned client makes, one after another while the authority lasts,
      there is a run from start-up in which each is admitted, carries its chunks both ways and is
      reported once as closed. */
  lemma {:induction false} AllConnectionsAreServed(clock: int, maxAge: int, uid: string, ip: string, deadline: int,
                                                   conns: seq<Conn>, chunks: nat)
    returns (steps: seq<Step>, p: Process)
    requires uid != "" && ip != "" && clock < deadline
    requires forall i, j :: 0 <= i < j < |conns| ==> conns[i] != conns[j]
    ensures Execute(Boot(clock, maxAge), steps) == Some(p) && Serving(p, ip) && ReportsEach(p.receipts, conns)
    ensures forall i :: 0 <= i < |conns| ==>
      TrafficOf(p, conns[i]) == Traffic(Flow(chunks, chunks), Flow(chunks, chunks))
    ensures p.nextID == |conns| && forall c :: c !in conns ==> Unknown(p, c)
  {
    if conns == [] {
      steps, p := StartOnce(clock, maxAge, uid, ip, Announced(clock, deadline));
    } else {
      var n := |conns| - 1;
      var before, q := AllConnectionsAreServed(clock, maxAge, uid, ip, deadline, conns[..n], chunks);
      steps, p := ClientIsServed(Boot(clock, maxAge), before, q, ip, conns[n], chunks);
      forall c | c !in conns ensures Unknown(p, c) {
        OthersStayUnknown(q, p, ip, conns[n], chunks, c);
      }
      forall i | 0 <= i < n ensures TrafficOf(p, conns[i]) == TrafficOf(q, conns[i]) {
        assert conns[i] in p.traffic <==> conns[i] in p.traffic - {conns[n]};
      }
    }
  }

  // ---- What fails from outside

  /** The listener opens exactly with authority ahead and a free address; otherwise the renewal has
      failed and nothing listens. */
  lemma ListeningExactly(p: Process, ok: bool)
    requires p.renewer.Granted? && p.acceptor.NotStarted?
    ensures var q := NextRenew(p, StartListener(ok));
      && q.Some? && q.value == p.(f := q.value.f, renewer := q.value.renewer, listenerOpen := q.value.listenerOpen)
      && if ok && p.clock < p.renewer.deadline
         then q.value.listenerOpen && q.value.renewer == Listened(p.renewer.deadline) && q.value.f.listening
         else q.value == p.(renewer := Failed)
  {
  }

  /** No failure from outside is ruled out, and each leads where it should: a failing listener ends
      the accept loop, a failing request the renewal, and a tripped fence its watchdogs. */
  lemma FailuresEnd(p: Process, v: nat)
    ensures p.acceptor.Accepting? ==> NextAccept(p, AcceptFails) == Some(p.(acceptor := AcceptDone))
    ensures p.renewer.Quiet? ==> NextRenew(p, ObserveFails) == Some(p.(renewer := Failed))
    ensures p.renewer.Leasing? ==> NextRenew(p, Refuse) == Some(p.(renewer := Failed))
    ensures v in p.watchdogs && p.watchdogs[v].alarm.Armed? && p.closer.Tripped? ==>
      NextWatchdog(p, v, Dismiss) == Some(p.(watchdogs := p.watchdogs[v := Watchdog(p.watchdogs[v].deadline, Retired)]))
    ensures p.renewer.Failed? && !p.acceptor.NotStarted? ==>
      NextTrip(p, Trip(RenewLoop)).Some? && NextTrip(p, Trip(RenewLoop)).value.f.fenced
  {
  }

  /** The close loop gets through, closing every connection it was given. */
  lemma {:induction false} CloseLoopFinishes(start: Process, steps: seq<Step>, p: Process)
    returns (more: seq<Step>, q: Process)
    requires Execute(start, steps) == Some(p) && p.closer.ClosingConnections?
    ensures Execute(start, more) == Some(q) && q == p.(closer := Tripped, open := p.open - p.closer.rest)
    decreases p.closer.rest
  {
    if p.closer.rest == {} {
      more, q := OneMore(start, steps, p, Closing(FinishTrip));
      assert p.open - {} == p.open;
    } else {
      var c :| c in p.closer.rest;
      more, q := OneMore(start, steps, p, Closing(CloseConnection(c)));
      more, q := CloseLoopFinishes(start, more, q);
      assert p.open - {c} - (p.closer.rest - {c}) == p.open - p.closer.rest;
    }
  }

  /** A call of `trip` that finds the process unfenced can run to its end: the listener and every
      registered connection are closed. */
  lemma TripRunsToItsEnd(p: Process) returns (steps: seq<Step>, q: Process)
    requires !p.acceptor.NotStarted? && !p.f.fenced
    ensures Execute(p, steps) == Some(q) && q.f == p.f.(fenced := true)
    ensures q == p.(f := q.f, closer := Tripped, listenerOpen := false, open := p.open - p.f.connections)
  {
    steps, q := OneMore(p, [], p, Closing(Trip(Outside)));
    steps, q := OneMore(p, steps, q, Closing(CloseListener));
    steps, q := CloseLoopFinishes(p, steps, q);
  }

  // ---- Ages

  /** No deadline lies further ahead than the connection age, which is at most the configured one. */
  ghost predicate AgeInv(p: Process, maxAge: int) {
    && (maxAge > 0 ==> 0 < p.f.maxConnectionAge <= maxAge)
    && (p.acceptor.NotStarted? ==> p.tunnels == map[])
    && forall c :: c in p.tunnels && p.tunnels[c].deadline.Some? ==>
         p.tunnels[c].deadline.value <= p.clock + p.f.maxConnectionAge
  }

  lemma AdmittingKeepsAge(p: Process, a: AcceptStep, maxAge: int)
    requires AgeInv(p, maxAge) && NextAccept(p, a).Some?
    ensures AgeInv(NextAccept(p, a).value, maxAge)
  {
  }

  lemma TunnelingKeepsAge(p: Process, c: Conn, t: TunnelStep, maxAge: int)
    requires AgeInv(p, maxAge) && NextTunnel(p, c, t).Some?
    ensures AgeInv(NextTunnel(p, c, t).value, maxAge)
  {
    if t.Bound? {
      ConnectionDeadlineIsBounded(p.f, t.read);
    }
  }

  lemma RenewingKeepsAge(p: Process, r: RenewStep, maxAge: int)
    requires AgeInv(p, maxAge) && NextRenew(p, r).Some?
    ensures AgeInv(NextRenew(p, r).value, maxAge)
  {
    RenewingFrame(p, r);
    if r.StartListener? {
      ListeningIsWithinAuthority(p.f, p.renewer.deadline, p.clock);
    }
  }

  lemma ClosingKeepsAge(p: Process, x: TripStep, maxAge: int)
    requires AgeInv(p, maxAge) && NextTrip(p, x).Some?
    ensures AgeInv(NextTrip(p, x).value, maxAge)
  {
    ClosingFrame(p, x);
    if x.Trip? {
      TripFrame(p, x.caller);
    } else {
      OtherClosingKeepsFields(p, x);
    }
  }

  /** In every run no tunnel may last longer than the configured connection age from now on. */
  lemma {:induction false} NoTunnelOutlivesItsAge(clock: int, maxAge: int, steps: seq<Step>)
    requires Execute(Boot(clock, maxAge), steps).Some?
    ensures AgeInv(Execute(Boot(clock, maxAge), steps).value, maxAge)
  {
    if steps != [] {
      var n := |steps| - 1;
      NoTunnelOutlivesItsAge(clock, maxAge, steps[..n]);
      var p := Execute(Boot(clock, maxAge), steps[..n]).value;
      match steps[n]
      case Admitting(a) => AdmittingKeepsAge(p, a, maxAge);
      case Tunneling(c, t) => TunnelingKeepsAge(p, c, t, maxAge);
      case Renewing(r) => RenewingKeepsAge(p, r, maxAge);
      case Closing(x) => ClosingKeepsAge(p, x, maxAge);
      case _ =>
    }
  }
}
