/** The fence's process on a schedule: while every deadline is announced before the one it
    replaces is over, no watchdog ever trips. */
module FenceTimeliness {
  import opened Outcomes
  import opened LeaseClient
  import opened FenceProcess
  import opened FenceAuthority
  import opened RenewalTiming

  lemma RenewingChangesDeadline(p: Process, r: RenewStep)
    requires NextRenew(p, r).Some?
    ensures var q := NextRenew(p, r).value;
      && q.clock == p.clock
      && (r != Announce ==> q.f.authorityDeadline == p.f.authorityDeadline)
      && (r == Announce ==> (p.renewer.Listened? || p.renewer.Granted?)
                            && q.f.authorityDeadline == Some(p.renewer.deadline))
  {
  }

  /** Only an announcement changes the deadline in force, and no step turns the clock back. */
  lemma OnlyAnnouncing(p: Process, s: Step)
    requires Next(p, s).Some?
    ensures p.clock <= Next(p, s).value.clock
    ensures s != Renewing(Announce) ==> Next(p, s).value.f.authorityDeadline == p.f.authorityDeadline
  {
    match s
    case Admitting(_) => ConnectionStepsKeepAuthority(p, s);
    case Tunneling(_, _) => ConnectionStepsKeepAuthority(p, s);
    case Renewing(r) => RenewingChangesDeadline(p, r);
    case Closing(x) =>
      ClosingFrame(p, x);
      if x.Trip? {
        TripFrame(p, x.caller);
      } else {
        OtherClosingKeepsFields(p, x);
      }
    case _ =>
  }

  lemma OtherClosingKeepsFields(p: Process, x: TripStep)
    requires NextTrip(p, x).Some? && !x.Trip?
    ensures NextTrip(p, x).value.f == p.f
  {
  }

  predicate Ahead(p: Process) {
    p.f.authorityDeadline.None? || p.clock < p.f.authorityDeadline.value
  }

  /** Each announcement of the run finds the deadline in force still ahead. */
  ghost predicate AnnouncesInTime(start: Process, steps: seq<Step>) {
    forall n :: 0 <= n < |steps| && steps[n] == Renewing(Announce) ==>
      Execute(start, steps[..n]).Some? && Ahead(Execute(start, steps[..n]).value)
  }

  /** No watchdog has found its deadline over. */
  ghost predicate NoneExpired(p: Process) {
    forall v :: v in p.watchdogs ==> !p.watchdogs[v].alarm.Expired?
  }

  predicate WatchdogTrip(s: Step) {
    s.Closing? && s.x.Trip? && s.x.caller.ByWatchdog?
  }

  lemma RenewingKeepsNoneExpired(p: Process, r: RenewStep)
    requires NoneExpired(p) && NextRenew(p, r).Some?
    ensures NoneExpired(NextRenew(p, r).value)
  {
  }

  lemma ClosingKeepsNoneExpired(p: Process, x: TripStep)
    requires NoneExpired(p) && NextTrip(p, x).Some?
    ensures NoneExpired(NextTrip(p, x).value) && !WatchdogTrip(Closing(x))
  {
  }

  /** With the deadline in force ahead, no verdict of a watchdog trips. */
  lemma StepKeepsNoneExpired(p: Process, s: Step)
    requires WatchInv(p) && Ahead(p) && NoneExpired(p) && Next(p, s).Some?
    ensures NoneExpired(Next(p, s).value) && !WatchdogTrip(s)
  {
    match s
    case Admitting(_) => ConnectionStepsKeepAuthority(p, s);
    case Tunneling(_, _) => ConnectionStepsKeepAuthority(p, s);
    case Renewing(r) => RenewingKeepsNoneExpired(p, r);
    case Closing(x) => ClosingKeepsNoneExpired(p, x);
    case Watching(v, w) =>
      if w.Check? {
        WatchdogVerdict(p, v);
      }
    case _ =>
  }

  lemma EarlierIsInTime(start: Process, steps: seq<Step>)
    requires steps != [] && AnnouncesInTime(start, steps)
    ensures AnnouncesInTime(start, steps[..|steps| - 1])
  {
    var before := steps[..|steps| - 1];
    forall n | 0 <= n < |before| && before[n] == Renewing(Announce)
      ensures Execute(start, before[..n]).Some? && Ahead(Execute(start, before[..n]).value)
    {
      assert before[..n] == steps[..n];
    }
  }

  lemma EarlierIsAhead(start: Process, steps: seq<Step>, p: Process, q: Process)
    requires steps != [] && AnnouncesInTime(start, steps)
    requires Execute(start, steps[..|steps| - 1]) == Some(p) && Next(p, steps[|steps| - 1]) == Some(q) && Ahead(q)
    ensures Ahead(p)
  {
    OnlyAnnouncing(p, steps[|steps| - 1]);
  }

  /** No false trip: a run from start-up in which every announcement came before the deadline in
      force, and that ends before the last one, has no watchdog that found its deadline over, and
      none that tripped. */
  lemma {:induction false} NoWatchdogTripsInTime(clock: int, maxAge: int, steps: seq<Step>)
    requires Execute(Boot(clock, maxAge), steps).Some? && AnnouncesInTime(Boot(clock, maxAge), steps)
    requires Ahead(Execute(Boot(clock, maxAge), steps).value)
    ensures NoneExpired(Execute(Boot(clock, maxAge), steps).value)
    ensures forall i :: 0 <= i < |steps| ==> !WatchdogTrip(steps[i])
  {
    if steps != [] {
      var n := |steps| - 1;
      var start := Boot(clock, maxAge);
      var p := Execute(start, steps[..n]).value;
      EarlierIsInTime(start, steps);
      EarlierIsAhead(start, steps, p, Next(p, steps[n]).value);
      NoWatchdogTripsInTime(clock, maxAge, steps[..n]);
      RunsKeepAuthority(clock, maxAge, steps[..n]);
      StepKeepsNoneExpired(p, steps[n]);
      forall i | 0 <= i < |steps| ensures !WatchdogTrip(steps[i]) {
        assert i < n ==> steps[..n][i] == steps[i];
      }
    }
  }

  // ---- On a schedule of renewals

  /** When a deadline was announced, and which. */
  datatype Announced = Announced(at: int, deadline: int)

  function AnnouncedBy(p: Process, s: Step): seq<Announced> {
    if s == Renewing(Announce) && (p.renewer.Listened? || p.renewer.Granted?)
    then [Announced(p.clock, p.renewer.deadline)] else []
  }

  /** The announcements of a run, in order. */
  ghost function Announcements(start: Process, steps: seq<Step>): seq<Announced> {
    if steps == [] then []
    else
      match Execute(start, steps[..|steps| - 1])
      case None => []
      case Some(p) => Announcements(start, steps[..|steps| - 1]) + AnnouncedBy(p, steps[|steps| - 1])
  }

  function Latest(announced: seq<Announced>): Option<int> {
    if announced == [] then None else Some(announced[|announced| - 1].deadline)
  }

  lemma StepAnnounces(p: Process, s: Step, earlier: seq<Announced>)
    requires Next(p, s).Some? && p.f.authorityDeadline == Latest(earlier)
    ensures Next(p, s).value.f.authorityDeadline == Latest(earlier + AnnouncedBy(p, s))
    ensures s == Renewing(Announce) ==> AnnouncedBy(p, s) == [Announced(p.clock, p.renewer.deadline)]
  {
    OnlyAnnouncing(p, s);
    if s == Renewing(Announce) {
      RenewingChangesDeadline(p, Announce);
    }
  }

  /** The deadline in force is the one announced last. */
  lemma {:induction false} LastAnnouncedIsInForce(start: Process, steps: seq<Step>)
    requires Execute(start, steps).Some? && start.f.authorityDeadline.None?
    ensures Execute(start, steps).value.f.authorityDeadline == Latest(Announcements(start, steps))
  {
    if steps != [] {
      var before := steps[..|steps| - 1];
      LastAnnouncedIsInForce(start, before);
      StepAnnounces(Execute(start, before).value, steps[|steps| - 1], Announcements(start, before));
    }
  }

  /** The run announces what the schedule's renewals give, the first before the ticker is created
      and each later one when its renewal is done. */
  ghost predicate OnSchedule(c: Config, duration: int, s: Schedule, announced: seq<Announced>) {
    && |announced| <= 1 + |s.later|
    && (announced != [] ==> announced[0].at <= s.created && announced[0].deadline == DeadlineOf(c, duration, s.first))
    && (forall i :: 0 < i < |announced| ==>
          announced[i] == Announced(s.later[i - 1].done, DeadlineOf(c, duration, s.later[i - 1])))
  }

  ghost predicate InOrderOfTime(announced: seq<Announced>) {
    forall i :: 0 < i < |announced| ==> announced[i].at < announced[i - 1].deadline
  }

  lemma SchedulesAreInTime(c: Config, listenDelay: int, duration: int, s: Schedule, announced: seq<Announced>)
    requires ValidConfig(c) && Legal(c, listenDelay, s) && OnSchedule(c, duration, s, announced)
    requires SteadyRenewalsKeepUp(c, listenDelay, duration) && FirstRenewalKeepsUp(c, listenDelay, duration)
    ensures InOrderOfTime(announced)
  {
    forall i | 0 < i < |announced| ensures announced[i].at < announced[i - 1].deadline {
      if i == 1 {
        assert s.later[0].done < DeadlineOf(c, duration, s.first);
      } else {
        assert s.later[i - 1].done < DeadlineOf(c, duration, s.later[i - 2]);
      }
    }
  }

  lemma NextIsInOrder(earlier: seq<Announced>, more: seq<Announced>)
    requires InOrderOfTime(earlier + more)
    ensures InOrderOfTime(earlier)
    ensures |more| == 1 && earlier != [] ==> more[0].at < earlier[|earlier| - 1].deadline
  {
    forall i | 0 < i < |earlier| ensures earlier[i].at < earlier[i - 1].deadline {
      assert (earlier + more)[i] == earlier[i] && (earlier + more)[i - 1] == earlier[i - 1];
    }
    if |more| == 1 && earlier != [] {
      assert (earlier + more)[|earlier|] == more[0] && (earlier + more)[|earlier| - 1] == earlier[|earlier| - 1];
    }
  }

  lemma OneMoreInTime(start: Process, steps: seq<Step>, p: Process)
    requires steps != [] && AnnouncesInTime(start, steps[..|steps| - 1])
    requires Execute(start, steps[..|steps| - 1]) == Some(p)
    requires steps[|steps| - 1] == Renewing(Announce) ==> Ahead(p)
    ensures AnnouncesInTime(start, steps)
  {
    var before := steps[..|steps| - 1];
    forall n | 0 <= n < |steps| && steps[n] == Renewing(Announce)
      ensures Execute(start, steps[..n]).Some? && Ahead(Execute(start, steps[..n]).value)
    {
      if n < |before| {
        assert before[..n] == steps[..n] && before[n] == steps[n];
      }
    }
  }

  lemma {:induction false} OrderedAnnouncementsAreInTime(start: Process, steps: seq<Step>)
    requires Execute(start, steps).Some? && start.f.authorityDeadline.None?
    requires InOrderOfTime(Announcements(start, steps))
    ensures AnnouncesInTime(start, steps)
  {
    if steps != [] {
      var before, s := steps[..|steps| - 1], steps[|steps| - 1];
      var p, earlier := Execute(start, before).value, Announcements(start, before);
      NextIsInOrder(earlier, AnnouncedBy(p, s));
      OrderedAnnouncementsAreInTime(start, before);
      LastAnnouncedIsInForce(start, before);
      StepAnnounces(p, s, earlier);
      OneMoreInTime(start, steps, p);
    }
  }

  /** A fence on schedule never trips for being late: if the Lease's duration covers the first renewal
      and the later ones, no run that announces on a legal schedule, and ends before the deadline
      in force, has a watchdog that trips. */
  lemma OnScheduleNoWatchdogTrips(c: Config, listenDelay: int, duration: int, s: Schedule, clock: int, maxAge: int,
                                  steps: seq<Step>)
    requires ValidConfig(c) && listenDelay >= 0 && Legal(c, listenDelay, s)
    requires duration > c.poll + 4 * c.timeout + listenDelay + c.margin
    requires duration > Max(c.poll, c.timeout) + 3 * c.timeout + c.margin
    requires Execute(Boot(clock, maxAge), steps).Some? && Ahead(Execute(Boot(clock, maxAge), steps).value)
    requires OnSchedule(c, duration, s, Announcements(Boot(clock, maxAge), steps))
    ensures NoneExpired(Execute(Boot(clock, maxAge), steps).value)
    ensures forall i :: 0 <= i < |steps| ==> !WatchdogTrip(steps[i])
  {
    SteadyExactly(c, listenDelay, duration);
    FirstExactly(c, listenDelay, duration);
    SchedulesAreInTime(c, listenDelay, duration, s, Announcements(Boot(clock, maxAge), steps));
    OrderedAnnouncementsAreInTime(Boot(clock, maxAge), steps);
    NoWatchdogTripsInTime(clock, maxAge, steps);
  }
}
