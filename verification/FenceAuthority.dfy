/** What every interleaving of start-up, renewal loop and watchdogs keeps: a lapse
    is always noticed, and the client's identity never changes. */
module FenceAuthority {
  import opened Outcomes
  import opened FenceProxy
  import opened FenceProcess
  import opened FenceConnections

  // ------------------------------------------------------- authority and watchdogs

  predicate AuthorityInv(p: Process) {
    && (p.f.deadlineVersion == 0 <==> p.f.authorityDeadline.None?)
    && (p.renewer.Arming? ==>
          && p.renewer.version == p.f.deadlineVersion && p.renewer.version != 0
          && p.f.authorityDeadline == Some(p.renewer.deadline)
          && p.f.listening)
    && (p.acceptor.NotStarted? && !p.renewer.Arming? ==> p.f.deadlineVersion == 0)
    && (!p.acceptor.NotStarted? ==> p.f.deadlineVersion != 0 && p.f.listening)
    && (p.renewer.Listened? ==> p.acceptor.NotStarted? && p.f.listening)
  }

  /** A watchdog that fired had reached its deadline; the one of the current version
      stands for exactly the current authority deadline, and is only ever retired in
      a fenced process. */
  predicate WatchdogInv(p: Process, v: nat) {
    && (v in p.watchdogs ==>
          && 1 <= v <= p.f.deadlineVersion
          && (p.watchdogs[v].alarm.Fired? || p.watchdogs[v].alarm.Expired? ==> p.clock >= p.watchdogs[v].deadline))
    && (p.renewer.Arming? && v == p.f.deadlineVersion ==> v !in p.watchdogs)
    && (v == p.f.deadlineVersion && v != 0 && !p.renewer.Arming? ==>
          && v in p.watchdogs && p.f.authorityDeadline == Some(p.watchdogs[v].deadline)
          && (p.watchdogs[v].alarm.Retired? ==> p.f.fenced))
  }

  ghost predicate WatchInv(p: Process) {
    && FencingInv(p) && AuthorityInv(p)
    && (forall v: nat :: WatchdogInv(p, v))
  }

  /** The accept loop and the proxy goroutines leave authority alone. */
  ghost predicate SameAuthority(p: Process, q: Process) {
    && q.clock == p.clock && q.renewer == p.renewer && q.watchdogs == p.watchdogs && q.closer == p.closer
    && q.f.authorityDeadline == p.f.authorityDeadline && q.f.deadlineVersion == p.f.deadlineVersion
    && q.f.fenced == p.f.fenced && q.f.listening == p.f.listening
    && q.acceptor.NotStarted? == p.acceptor.NotStarted?
  }

  lemma AdmittingKeepsAuthority(p: Process, a: AcceptStep)
    requires NextAccept(p, a).Some?
    ensures SameAuthority(p, NextAccept(p, a).value)
  {
  }

  lemma TunnelingKeepsAuthority(p: Process, c: Conn, t: TunnelStep)
    requires NextTunnel(p, c, t).Some?
    ensures SameAuthority(p, NextTunnel(p, c, t).value)
  {
  }

  lemma ConnectionStepsKeepAuthority(p: Process, s: Step)
    requires s.Admitting? || s.Tunneling?
    requires Next(p, s).Some?
    ensures SameAuthority(p, Next(p, s).value)
  {
    match s
    case Admitting(a) => AdmittingKeepsAuthority(p, a);
    case Tunneling(c, t) => TunnelingKeepsAuthority(p, c, t);
  }

  lemma AuthorityKeptByRenew(p: Process, r: RenewStep)
    requires AuthorityInv(p) && NextRenew(p, r).Some?
    ensures AuthorityInv(NextRenew(p, r).value)
  {
  }

  lemma AuthorityKept(p: Process, s: Step)
    requires AuthorityInv(p) && Next(p, s).Some?
    ensures AuthorityInv(Next(p, s).value)
  {
    match s
    case Admitting(_) => ConnectionStepsKeepAuthority(p, s);
    case Tunneling(_, _) => ConnectionStepsKeepAuthority(p, s);
    case Renewing(r) => AuthorityKeptByRenew(p, r);
    case Closing(x) => AuthorityKeptByTrip(p, x);
    case _ =>
  }

  lemma AuthorityKeptByTrip(p: Process, x: TripStep)
    requires AuthorityInv(p) && NextTrip(p, x).Some?
    ensures AuthorityInv(NextTrip(p, x).value)
  {
  }

  lemma WatchdogKeptByRenew(p: Process, r: RenewStep, v: nat)
    requires FencingInv(p) && AuthorityInv(p) && NextRenew(p, r).Some?
    requires WatchdogInv(p, v) && WatchdogInv(p, p.f.deadlineVersion + 1)
    ensures WatchdogInv(NextRenew(p, r).value, v)
  {
  }

  lemma WatchdogKeptByTrip(p: Process, x: TripStep, v: nat)
    requires FencingInv(p) && WatchdogInv(p, v) && NextTrip(p, x).Some?
    ensures WatchdogInv(NextTrip(p, x).value, v)
  {
  }

  lemma WatchdogKeptByWatchdog(p: Process, u: nat, w: WatchdogStep, v: nat)
    requires FencingInv(p) && WatchdogInv(p, u) && WatchdogInv(p, v) && NextWatchdog(p, u, w).Some?
    ensures WatchdogInv(NextWatchdog(p, u, w).value, v)
  {
  }

  lemma WatchdogKept(p: Process, s: Step, v: nat)
    requires WatchInv(p) && Next(p, s).Some?
    ensures WatchdogInv(Next(p, s).value, v)
  {
    assert WatchdogInv(p, v) && WatchdogInv(p, p.f.deadlineVersion + 1);
    match s
    case Admitting(_) => ConnectionStepsKeepAuthority(p, s);
    case Tunneling(_, _) => ConnectionStepsKeepAuthority(p, s);
    case Closing(x) => WatchdogKeptByTrip(p, x, v);
    case Renewing(r) => WatchdogKeptByRenew(p, r, v);
    case Watching(u, w) => WatchdogKeptByWatchdog(p, u, w, v);
    case _ =>
  }

  lemma WatchKept(p: Process, s: Step)
    requires WatchInv(p) && Next(p, s).Some?
    ensures WatchInv(Next(p, s).value)
  {
    FencingKept(p, s);
    AuthorityKept(p, s);
    forall v: nat ensures WatchdogInv(Next(p, s).value, v) {
      WatchdogKept(p, s, v);
    }
  }

  /** In a started, unfenced process the current authority deadline always has its
      watchdog: being armed, armed, fired, or already found expired. */
  lemma CurrentDeadlineIsWatched(p: Process)
    requires WatchInv(p) && !p.acceptor.NotStarted? && !p.f.fenced
    ensures p.f.authorityDeadline.Some?
    ensures p.renewer == Arming(p.f.deadlineVersion, p.f.authorityDeadline.value)
            || (&& p.f.deadlineVersion in p.watchdogs
                && p.watchdogs[p.f.deadlineVersion].deadline == p.f.authorityDeadline.value
                && !p.watchdogs[p.f.deadlineVersion].alarm.Retired?)
  {
    assert WatchdogInv(p, p.f.deadlineVersion);
  }

  /** A watchdog finds its authority expired exactly when the process is unfenced and
      its version is still the current one; its own deadline has then passed. */
  lemma WatchdogVerdict(p: Process, v: nat)
    requires WatchInv(p) && NextWatchdog(p, v, Check).Some?
    ensures var q := NextWatchdog(p, v, Check).value;
            && v in q.watchdogs
            && (q.watchdogs[v].alarm.Expired? <==> !p.f.fenced && v == p.f.deadlineVersion)
            && (q.watchdogs[v].alarm.Expired? ==>
                  p.f.authorityDeadline == Some(p.watchdogs[v].deadline) && p.clock >= p.watchdogs[v].deadline)
            && (!q.watchdogs[v].alarm.Expired? ==> q.watchdogs[v].alarm.Retired?)
  {
    assert WatchdogInv(p, v);
  }

  lemma OneMore(p: Process, steps: seq<Step>, q: Process, s: Step) returns (more: seq<Step>, r: Process)
    requires Execute(p, steps) == Some(q) && Next(q, s).Some?
    ensures more == steps + [s] && r == Next(q, s).value && Execute(p, more) == Some(r)
  {
    more, r := steps + [s], Next(q, s).value;
    assert more[..|more| - 1] == steps;
  }

  /** The steps of the watchdog of one version, and its arming. */
  predicate WatchdogPath(s: Step, v: nat) {
    s == Renewing(Arm) || s == Watching(v, Fire) || s == Watching(v, Check) || s == Closing(Trip(ByWatchdog(v)))
  }

  lemma ArmedLapseTrips(p: Process) returns (steps: seq<Step>, q: Process)
    requires WatchInv(p) && !p.acceptor.NotStarted? && !p.f.fenced && !p.renewer.Arming?
    requires p.f.authorityDeadline.Some? && p.clock >= p.f.authorityDeadline.value
    ensures |steps| <= 3 && (forall i :: 0 <= i < |steps| ==> WatchdogPath(steps[i], p.f.deadlineVersion))
    ensures Execute(p, steps) == Some(q) && q.f.fenced
  {
    var v := p.f.deadlineVersion;
    steps, q := [], p;
    assert WatchdogInv(p, v);
    if p.watchdogs[v].alarm.Armed? {
      steps, q := OneMore(p, steps, q, Watching(v, Fire));
    }
    if q.watchdogs[v].alarm.Fired? {
      steps, q := OneMore(p, steps, q, Watching(v, Check));
    }
    assert q.watchdogs[v].alarm.Expired?;
    steps, q := OneMore(p, steps, q, Closing(Trip(ByWatchdog(v))));
  }

  /** Once the deadline is reached, the watchdog's own steps lead to a fenced process. */
  lemma LapseTrips(p: Process) returns (steps: seq<Step>, q: Process)
    requires WatchInv(p) && !p.acceptor.NotStarted? && !p.f.fenced
    requires p.f.authorityDeadline.Some? && p.clock >= p.f.authorityDeadline.value
    ensures |steps| <= 4 && (forall i :: 0 <= i < |steps| ==> WatchdogPath(steps[i], p.f.deadlineVersion))
    ensures Execute(p, steps) == Some(q) && q.f.fenced
  {
    if p.renewer.Arming? {
      var r := NextRenew(p, Arm).value;
      WatchKept(p, Renewing(Arm));
      var rest, last := ArmedLapseTrips(r);
      ExecuteAfter(p, Renewing(Arm), rest);
      steps, q := [Renewing(Arm)] + rest, last;
    } else {
      steps, q := ArmedLapseTrips(p);
    }
  }

  /** A run may be read from its first step as well as from its last. */
  lemma {:induction false} ExecuteAfter(p: Process, s: Step, rest: seq<Step>)
    requires Next(p, s).Some?
    ensures Execute(p, [s] + rest) == Execute(Next(p, s).value, rest)
  {
    var whole := [s] + rest;
    if rest == [] {
      assert whole[..|whole| - 1] == [];
      assert Execute(p, whole[..|whole| - 1]) == Some(p);
    } else {
      assert whole[..|whole| - 1] == [s] + rest[..|rest| - 1];
      ExecuteAfter(p, s, rest[..|rest| - 1]);
    }
  }

  // ------------------------------------------------------ a lapse is always noticed

  /** Started and unfenced, with the authority deadline passed. */
  ghost predicate Lapsing(p: Process) {
    && WatchInv(p) && !p.acceptor.NotStarted? && !p.f.fenced
    && p.f.authorityDeadline.Some? && p.clock >= p.f.authorityDeadline.value
  }

  /** The next step on the current version's way to `trip`. */
  function PendingAlarm(p: Process): Step {
    var v := p.f.deadlineVersion;
    if p.renewer.Arming? then Renewing(Arm)
    else if v in p.watchdogs && p.watchdogs[v].alarm.Armed? then Watching(v, Fire)
    else if v in p.watchdogs && p.watchdogs[v].alarm.Fired? then Watching(v, Check)
    else Closing(Trip(ByWatchdog(v)))
  }

  /** How many steps the way still has. */
  function StepsToTrip(p: Process): nat {
    match PendingAlarm(p)
    case Renewing(_) => 4
    case Watching(_, Fire) => 3
    case Watching(_, _) => 2
    case _ => 1
  }

  lemma PendingIsEnabled(p: Process)
    requires Lapsing(p)
    ensures Next(p, PendingAlarm(p)).Some?
    ensures var q := Next(p, PendingAlarm(p)).value;
      q.f.fenced || (Lapsing(q) && q.f.deadlineVersion == p.f.deadlineVersion && StepsToTrip(q) < StepsToTrip(p))
  {
    var v := p.f.deadlineVersion;
    assert WatchdogInv(p, v);
    WatchKept(p, PendingAlarm(p));
  }

  lemma RenewingKeepsPending(p: Process, r: RenewStep)
    requires Lapsing(p) && NextRenew(p, r).Some? && Renewing(r) != PendingAlarm(p)
    ensures var q := NextRenew(p, r).value;
      || q.f.deadlineVersion > p.f.deadlineVersion
      || (PendingAlarm(q) == PendingAlarm(p) && q.f.authorityDeadline == p.f.authorityDeadline
          && q.f.deadlineVersion == p.f.deadlineVersion && q.clock == p.clock && !q.acceptor.NotStarted?)
  {
  }

  lemma ClosingKeepsPending(p: Process, x: TripStep)
    requires Lapsing(p) && NextTrip(p, x).Some?
    ensures NextTrip(p, x).value.f.fenced
  {
  }

  lemma WatchingKeepsPending(p: Process, v: nat, w: WatchdogStep)
    requires Lapsing(p) && NextWatchdog(p, v, w).Some? && Watching(v, w) != PendingAlarm(p)
    ensures var q := NextWatchdog(p, v, w).value;
      PendingAlarm(q) == PendingAlarm(p) && q == p.(watchdogs := q.watchdogs)
  {
    assert WatchdogInv(p, p.f.deadlineVersion);
  }

  /** Every other step leaves the pending one pending, and so enabled, unless the process is
      fenced or a later deadline is published. */
  lemma PendingStaysPending(p: Process, s: Step)
    requires Lapsing(p) && Next(p, s).Some? && s != PendingAlarm(p)
    ensures var q := Next(p, s).value;
      || q.f.fenced
      || q.f.deadlineVersion > p.f.deadlineVersion
      || (Lapsing(q) && q.f.deadlineVersion == p.f.deadlineVersion && PendingAlarm(q) == PendingAlarm(p))
  {
    WatchKept(p, s);
    match s
    case Admitting(_) => ConnectionStepsKeepAuthority(p, s);
    case Tunneling(_, _) => ConnectionStepsKeepAuthority(p, s);
    case Closing(x) => ClosingKeepsPending(p, x);
    case Renewing(r) => RenewingKeepsPending(p, r);
    case Watching(v, w) => WatchingKeepsPending(p, v, w);
    case _ =>
  }

  lemma VersionNeverDecreases(p: Process, s: Step)
    requires Next(p, s).Some?
    ensures Next(p, s).value.f.deadlineVersion >= p.f.deadlineVersion
  {
    match s
    case Admitting(_) => ConnectionStepsKeepAuthority(p, s);
    case Tunneling(_, _) => ConnectionStepsKeepAuthority(p, s);
    case Closing(x) => ClosingFrame(p, x); if x.Trip? { TripFrame(p, x.caller); }
    case Renewing(r) => RenewingKeepsVersion(p, r);
    case _ =>
  }

  lemma RenewingKeepsVersion(p: Process, r: RenewStep)
    requires NextRenew(p, r).Some?
    ensures NextRenew(p, r).value.f.deadlineVersion >= p.f.deadlineVersion
  {
  }

  /** How often the run takes the step that is pending at that moment. */
  ghost function PendingTaken(p: Process, more: seq<Step>): nat {
    if more == [] then 0
    else
      var before, s := more[..|more| - 1], more[|more| - 1];
      PendingTaken(p, before)
      + (if Execute(p, before).Some? && s == PendingAlarm(Execute(p, before).value) then 1 else 0)
  }

  /** A lapse cannot go unnoticed: in every continuation the process is fenced, or has a later
      deadline, or its next step towards `trip` is enabled, and each time such a step is taken,
      at most four times, the way gets shorter. */
  lemma {:induction false} LapseIsNoticed(p: Process, more: seq<Step>)
    requires Lapsing(p) && Execute(p, more).Some?
    ensures var q := Execute(p, more).value;
      || q.f.fenced
      || q.f.deadlineVersion > p.f.deadlineVersion
      || (Lapsing(q) && Next(q, PendingAlarm(q)).Some? && q.f.deadlineVersion == p.f.deadlineVersion
          && 1 <= StepsToTrip(q) <= StepsToTrip(p) - PendingTaken(p, more) <= 4)
  {
    if more == [] {
      PendingIsEnabled(p);
    } else {
      var before, s := more[..|more| - 1], more[|more| - 1];
      LapseIsNoticed(p, before);
      var u := Execute(p, before).value;
      StepStaysFenced(u, s);
      VersionNeverDecreases(u, s);
      if Lapsing(u) && u.f.deadlineVersion == p.f.deadlineVersion {
        if s == PendingAlarm(u) {
          PendingIsEnabled(u);
        } else {
          PendingStaysPending(u, s);
        }
        if Lapsing(Next(u, s).value) {
          PendingIsEnabled(Next(u, s).value);
        }
      }
    }
  }

  // ------------------------------------------------------------- client identity

  predicate FromClient(p: Process, c: Conn) {
    && c in p.hosts && p.hosts[c] == p.f.clientIP && p.f.clientIP != ""
    && p.f.downstreamIP == p.f.clientIP
  }

  predicate IdentityInv(p: Process) {
    && (p.f.clientUID == "" <==> p.f.clientIP == "")
    && (p.f.downstreamIP == "" || p.f.downstreamIP == p.f.clientIP)
    && (p.acceptor.Checking? ==> p.acceptor.conn in p.hosts && p.hosts[p.acceptor.conn] == p.acceptor.host)
    && (p.acceptor.Admitted? ==> FromClient(p, p.acceptor.conn))
  }

  ghost predicate ClientInv(p: Process) {
    && IdentityInv(p)
    && (forall c :: c in p.tunnels ==> FromClient(p, c))
  }

  /** Trips, watchdogs and proxy goroutines leave the identity alone. */
  lemma TunnelingKeepsIdentity(p: Process, s: Step)
    requires s.Tunneling? && Next(p, s).Some?
    ensures var q := Next(p, s).value;
            && q.f.clientUID == p.f.clientUID && q.f.clientIP == p.f.clientIP && q.f.downstreamIP == p.f.downstreamIP
            && q.hosts == p.hosts && q.acceptor == p.acceptor
  {
  }

  lemma OtherStepsKeepIdentity(p: Process, s: Step)
    requires !s.Admitting? && !s.Renewing? && Next(p, s).Some?
    ensures var q := Next(p, s).value;
            && q.f.clientUID == p.f.clientUID && q.f.clientIP == p.f.clientIP && q.f.downstreamIP == p.f.downstreamIP
            && q.hosts == p.hosts && q.acceptor == p.acceptor
  {
    match s
    case Tunneling(_, _) => TunnelingKeepsIdentity(p, s);
    case Closing(x) => ClosingKeepsIdentity(p, x);
    case _ =>
  }

  lemma ClosingKeepsIdentity(p: Process, x: TripStep)
    requires NextTrip(p, x).Some?
    ensures var q := NextTrip(p, x).value;
            && q.f.clientUID == p.f.clientUID && q.f.clientIP == p.f.clientIP && q.f.downstreamIP == p.f.downstreamIP
            && q.hosts == p.hosts && q.acceptor == p.acceptor
  {
    ClosingFrame(p, x);
    if x.Trip? {
      TripFrame(p, x.caller);
    }
  }

  ghost predicate PinnedBy(p: Process, q: Process) {
    && (p.f.clientUID != "" ==> q.f.clientUID == p.f.clientUID && q.f.clientIP == p.f.clientIP)
    && (p.f.downstreamIP != "" ==> q.f.downstreamIP == p.f.downstreamIP)
    && (forall c :: c in p.hosts ==> c in q.hosts && q.hosts[c] == p.hosts[c])
  }

  lemma AdmittingPinsIdentity(p: Process, a: AcceptStep)
    requires IdentityInv(p) && NextAccept(p, a).Some?
    ensures PinnedBy(p, NextAccept(p, a).value)
  {
  }

  lemma RenewingPinsIdentity(p: Process, r: RenewStep)
    requires IdentityInv(p) && NextRenew(p, r).Some?
    ensures PinnedBy(p, NextRenew(p, r).value)
  {
  }

  lemma StepPinsIdentity(p: Process, s: Step)
    requires IdentityInv(p) && Next(p, s).Some?
    ensures PinnedBy(p, Next(p, s).value)
  {
    match s
    case Admitting(a) => AdmittingPinsIdentity(p, a);
    case Renewing(r) => RenewingPinsIdentity(p, r);
    case _ => OtherStepsKeepIdentity(p, s);
  }

  lemma ClientKept(p: Process, s: Step)
    requires ClientInv(p) && Next(p, s).Some?
    ensures ClientInv(Next(p, s).value)
  {
    var q := Next(p, s).value;
    StepPinsIdentity(p, s);
    if s.Tunneling? {
      OtherStepsKeepIdentity(p, s);
      forall c | c in q.tunnels ensures FromClient(q, c) {
        assert c in p.tunnels;
      }
    } else {
      OtherStepsKeepTunnels(p, s);
      IdentityKept(p, s);
    }
  }

  lemma IdentityKeptByAccept(p: Process, a: AcceptStep)
    requires IdentityInv(p) && NextAccept(p, a).Some?
    ensures IdentityInv(NextAccept(p, a).value)
  {
  }

  ghost predicate SameIdentity(p: Process, q: Process) {
    && q.f.clientUID == p.f.clientUID && q.f.clientIP == p.f.clientIP && q.f.downstreamIP == p.f.downstreamIP
    && q.hosts == p.hosts && (q.acceptor == p.acceptor || q.acceptor.Accepting?)
  }

  lemma OnlyObservingPins(p: Process, r: RenewStep)
    requires NextRenew(p, r).Some? && !r.Observe?
    ensures SameIdentity(p, NextRenew(p, r).value)
  {
  }

  lemma IdentityKeptIfSame(p: Process, q: Process)
    requires IdentityInv(p) && SameIdentity(p, q)
    ensures IdentityInv(q)
  {
  }

  lemma IdentityKeptByObserve(p: Process, uid: string, ip: string)
    requires IdentityInv(p) && NextRenew(p, Observe(uid, ip)).Some?
    ensures IdentityInv(NextRenew(p, Observe(uid, ip)).value)
  {
  }

  lemma IdentityKeptByRenew(p: Process, r: RenewStep)
    requires IdentityInv(p) && NextRenew(p, r).Some?
    ensures IdentityInv(NextRenew(p, r).value)
  {
    if r.Observe? {
      IdentityKeptByObserve(p, r.uid, r.ip);
    } else {
      OnlyObservingPins(p, r);
      IdentityKeptIfSame(p, NextRenew(p, r).value);
    }
  }

  lemma IdentityKept(p: Process, s: Step)
    requires IdentityInv(p) && Next(p, s).Some?
    ensures IdentityInv(Next(p, s).value)
  {
    match s
    case Admitting(a) => IdentityKeptByAccept(p, a);
    case Renewing(r) => IdentityKeptByRenew(p, r);
    case _ => OtherStepsKeepIdentity(p, s);
  }

  /** Every connection that gets a tunnel comes from the pinned client address. */
  lemma TunnelsComeFromTheClient(p: Process, c: Conn)
    requires ClientInv(p) && c in p.tunnels
    ensures p.hosts[c] == p.f.clientIP == p.f.downstreamIP != ""
  {
  }

  /** In every run the source check lets a connection on exactly if it comes from the pinned client
      and the process is not fenced, however often the client has connected before. */
  lemma AdmittedExactly(clock: int, maxAge: int, steps: seq<Step>, p: Process)
    requires Execute(Boot(clock, maxAge), steps) == Some(p) && p.acceptor.Checking?
    ensures NextAccept(p, CheckSource).Some?
    ensures var q := NextAccept(p, CheckSource).value;
      && (q.acceptor == Admitted(p.acceptor.conn) <==>
            !p.f.fenced && p.acceptor.host != "" && p.acceptor.host == p.f.clientIP)
      && (q.acceptor != Admitted(p.acceptor.conn) ==> q.acceptor == Rejecting(p.acceptor.conn) && q.f == p.f)
  {
    RunsKeepAuthority(clock, maxAge, steps);
  }

  /** Before the process has started it has seen no client, or is past asking. */
  predicate StartInv(p: Process) {
    p.acceptor.NotStarted? && p.renewer.Quiet? ==> p.f.clientUID == ""
  }

  lemma StartKept(p: Process, s: Step)
    requires StartInv(p) && IdentityInv(p) && Next(p, s).Some?
    ensures StartInv(Next(p, s).value)
    ensures !p.acceptor.NotStarted? ==> !Next(p, s).value.acceptor.NotStarted?
  {
    match s
    case Admitting(_) => ConnectionStepsKeepAuthority(p, s);
    case Tunneling(_, _) => ConnectionStepsKeepAuthority(p, s);
    case Closing(x) => ClosingFrame(p, x); if x.Trip? { TripFrame(p, x.caller); }
    case Renewing(r) => RenewingKeepsStart(p, r);
    case _ =>
  }

  lemma RenewingKeepsStart(p: Process, r: RenewStep)
    requires StartInv(p) && NextRenew(p, r).Some?
    ensures StartInv(NextRenew(p, r).value)
    ensures !p.acceptor.NotStarted? ==> !NextRenew(p, r).value.acceptor.NotStarted?
  {
  }

  lemma OtherIdentityFailsRenewal(p: Process, uid: string, ip: string)
    requires p.f.clientUID != "" && (uid != p.f.clientUID || ip != p.f.clientIP)
    requires NextRenew(p, Observe(uid, ip)).Some?
    ensures NextRenew(p, Observe(uid, ip)).value == p.(renewer := Failed)
  {
  }

  lemma FailedRenewalOnlyTrips(p: Process, s: Step)
    requires p.renewer.Failed? || (p.renewer.Ended? && p.f.fenced)
    requires Next(p, s).Some?
    ensures var q := Next(p, s).value;
            && (q.renewer.Failed? || (q.renewer.Ended? && q.f.fenced))
            && q.f.authorityDeadline == p.f.authorityDeadline && q.f.deadlineVersion == p.f.deadlineVersion
            && (p.renewer.Failed? && q.renewer.Ended? ==> s == Closing(Trip(RenewLoop)))
  {
    match s
    case Admitting(_) => ConnectionStepsKeepAuthority(p, s);
    case Tunneling(_, _) => ConnectionStepsKeepAuthority(p, s);
    case _ =>
  }

  // ------------------------------------------------------------------ whole runs

  lemma {:induction false} RunsKeepAuthority(clock: int, maxAge: int, steps: seq<Step>)
    requires Execute(Boot(clock, maxAge), steps).Some?
    ensures var p := Execute(Boot(clock, maxAge), steps).value;
            WatchInv(p) && ClientInv(p) && StartInv(p)
  {
    if steps == [] {
    } else {
      var before := steps[..|steps| - 1];
      RunsKeepAuthority(clock, maxAge, before);
      var p := Execute(Boot(clock, maxAge), before).value;
      WatchKept(p, steps[|steps| - 1]);
      ClientKept(p, steps[|steps| - 1]);
      StartKept(p, steps[|steps| - 1]);
    }
  }

  lemma {:induction false} ContinuationsPinIdentity(p: Process, more: seq<Step>)
    requires ClientInv(p) && Execute(p, more).Some?
    ensures ClientInv(Execute(p, more).value) && PinnedBy(p, Execute(p, more).value)
  {
    if more != [] {
      ContinuationsPinIdentity(p, more[..|more| - 1]);
      var u := Execute(p, more[..|more| - 1]).value;
      ClientKept(u, more[|more| - 1]);
      StepPinsIdentity(u, more[|more| - 1]);
    }
  }

  /** From any state of any run on, the client's UID and IP, the admitted source and the host of
      every accepted connection never change once they are set. */
  lemma IdentityIsPinned(clock: int, maxAge: int, steps: seq<Step>, p: Process, more: seq<Step>)
    requires Execute(Boot(clock, maxAge), steps) == Some(p) && Execute(p, more).Some?
    ensures PinnedBy(p, Execute(p, more).value)
  {
    RunsKeepAuthority(clock, maxAge, steps);
    ContinuationsPinIdentity(p, more);
  }

  lemma {:induction false} FailureIsFinal(p: Process, more: seq<Step>)
    requires p.renewer.Failed? && !p.acceptor.NotStarted? && StartInv(p) && ClientInv(p) && Execute(p, more).Some?
    ensures var q := Execute(p, more).value;
            && (q.renewer.Failed? || (q.renewer.Ended? && q.f.fenced))
            && q.f.authorityDeadline == p.f.authorityDeadline && q.f.deadlineVersion == p.f.deadlineVersion
            && !q.acceptor.NotStarted? && StartInv(q) && ClientInv(q)
  {
    if more != [] {
      FailureIsFinal(p, more[..|more| - 1]);
      var u := Execute(p, more[..|more| - 1]).value;
      FailedRenewalOnlyTrips(u, more[|more| - 1]);
      StartKept(u, more[|more| - 1]);
      ClientKept(u, more[|more| - 1]);
    }
  }

  /** A renewal that sees another Pod, or the same Pod with another address, ends in the fenced
      state: whatever follows it in whatever run publishes no authority any more, and the renewal
      loop has tripped the fence or has no other step left than tripping it. */
  lemma OtherIdentityEndsFenced(clock: int, maxAge: int, steps: seq<Step>, p: Process, uid: string, ip: string,
                                more: seq<Step>)
    requires Execute(Boot(clock, maxAge), steps) == Some(p)
    requires p.f.clientUID != "" && (uid != p.f.clientUID || ip != p.f.clientIP)
    requires NextRenew(p, Observe(uid, ip)).Some? && Execute(p, [Renewing(Observe(uid, ip))] + more).Some?
    ensures var q := Execute(p, [Renewing(Observe(uid, ip))] + more).value;
            && q.f.authorityDeadline == p.f.authorityDeadline && q.f.deadlineVersion == p.f.deadlineVersion
            && ((q.renewer.Ended? && q.f.fenced)
                || (q.renewer.Failed? && Next(q, Closing(Trip(RenewLoop))).Some?
                    && Next(q, Closing(Trip(RenewLoop))).value.f.fenced))
            && (forall r :: q.renewer.Failed? ==> NextRenew(q, r).None?)
  {
    RunsKeepAuthority(clock, maxAge, steps);
    OtherIdentityFailsRenewal(p, uid, ip);
    ExecuteAfter(p, Renewing(Observe(uid, ip)), more);
    FailureIsFinal(p.(renewer := Failed), more);
  }
}
