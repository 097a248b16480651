/** Mutual exclusion of live authority over all runs of the cluster. */
module LeaseExclusion {
  import opened Outcomes
  import opened LeaseClient
  import opened FenceProcess
  import opened LeaseCluster

  predicate Shape(k: Setup, w: World) {
    && w.fences.Keys == k.configs.Keys == k.maxAge.Keys && w.requests.Keys == k.configs.Keys
    && w.doc.durationSeconds == Some(k.seconds)
    && w.doc.resourceVersion != "" && w.doc.resourceVersion in w.versions
  }

  /** A snapshot is of the set-up's duration, and while its version is still the
      Lease's version it is what the Lease says. */
  predicate SnapshotOk(k: Setup, w: World, lease: Lease) {
    && lease.resourceVersion in w.versions
    && lease.duration == Duration(k)
    && (lease.resourceVersion == w.doc.resourceVersion ==> DecodeLease(w.doc) == Ok(lease))
  }

  function Deadline(k: Setup, a: Attempt): int
    requires a.fence in k.configs
  {
    a.now + Duration(k) - k.configs[a.fence].margin
  }

  /** In flight, and still built on the Lease's version: it would land. */
  predicate Current(w: World, a: Attempt) {
    a.fate.InFlight? && a.basis.resourceVersion == w.doc.resourceVersion
  }

  predicate AttemptOk(k: Setup, w: World, a: Attempt)
    requires Shape(k, w)
  {
    && a.fence in k.configs
    && a.now <= w.fences[a.fence].clock
    && SnapshotOk(k, w, a.basis)
    && Prepare(k.configs[a.fence], a.basis, a.now) == Ok(a.patch)
    && (a.fate.Landed? ==>
          && a.basis.resourceVersion != w.doc.resourceVersion
          && a.fate.doc.resourceVersion in w.versions
          && Conclude(k.configs[a.fence], a.fate.doc, a.now) == Ok(Deadline(k, a)))
  }

  predicate RequestOk(k: Setup, w: World, f: Id)
    requires Shape(k, w) && f in k.configs
  {
    && (!w.requests[f].Idle? ==> w.fences[f].renewer.Leasing?)
    && (w.requests[f].Fetched? ==> SnapshotOk(k, w, w.requests[f].lease))
    && (w.requests[f].Awaiting? ==>
          w.requests[f].attempt < |w.attempts| && w.attempts[w.requests[f].attempt].fence == f)
  }

  /** Where a deadline of fence f stands against the Lease: while the Lease names f it
      is covered by the renewal time, otherwise it is over on f's own clock. */
  predicate Safe(k: Setup, w: World, f: Id, d: int)
    requires Shape(k, w) && f in k.configs
  {
    if w.doc.holderIdentity == Some(f) then
      && w.doc.renewTime.At?
      && d <= w.doc.renewTime.instant + MICROSECOND - 1 + Duration(k) - k.configs[f].margin
    else
      d <= w.fences[f].clock
  }

  /** A deadline that a landed patch of f gave or that f holds: f accepts the Lease's duration;
      the deadline is safe if the margins cover the skew or f holds the Lease, and in any case
      not ahead of what f's clock could give now, nor of a patch of f that would still land. */
  ghost predicate Good(k: Setup, w: World, f: Id, d: int)
    requires Shape(k, w) && f in k.configs
  {
    && Accepts(k, f)
    && (MarginsCoverSkew(k) || w.doc.holderIdentity == Some(f) ==> Safe(k, w, f, d))
    && d <= w.fences[f].clock + Duration(k) - k.configs[f].margin
    && (forall a <- w.attempts :: a.fence == f && Current(w, a) ==> d <= Deadline(k, a))
  }

  ghost predicate LandedAreGood(k: Setup, w: World)
    requires Shape(k, w)
  {
    forall a <- w.attempts :: a.fence in k.configs && a.fate.Landed? ==> Good(k, w, a.fence, Deadline(k, a))
  }

  ghost predicate HeldAreGood(k: Setup, w: World)
    requires Shape(k, w)
  {
    forall f, d :: f in k.configs && Holds(w.fences[f], d) ==> Good(k, w, f, d)
  }

  ghost predicate Inv(k: Setup, w: World) {
    && Shape(k, w)
    && ClocksAgree(k, w.fences)
    && (forall a <- w.attempts :: AttemptOk(k, w, a))
    && (forall f <- k.configs :: RequestOk(k, w, f))
    && LandedAreGood(k, w)
    && HeldAreGood(k, w)
  }

  lemma InitInv(k: Setup, w: World)
    requires ValidSetup(k) && Init(k, w)
    ensures Inv(k, w)
  {
  }

  // ------------------------------------------------ processes hold what they got

  lemma RenewingHoldsNoMore(p: Process, r: RenewStep, d: int)
    requires NextRenew(p, r).Some? && IsLocal(Renewing(r)) && Holds(NextRenew(p, r).value, d)
    ensures Holds(p, d)
  {
  }

  lemma AdmittingHoldsNoMore(p: Process, a: AcceptStep, d: int)
    requires NextAccept(p, a).Some? && Holds(NextAccept(p, a).value, d)
    ensures Holds(p, d)
  {
  }

  /** A process comes to hold a deadline only by a grant. */
  lemma OnlyGrantsAreHeld(p: Process, s: Step, d: int)
    requires Next(p, s).Some? && IsLocal(s) && Holds(Next(p, s).value, d)
    ensures Holds(p, d)
  {
    match s
    case Admitting(a) => AdmittingHoldsNoMore(p, a, d);
    case Renewing(r) => RenewingHoldsNoMore(p, r, d);
    case Closing(x) => ClosingHoldsNoMore(p, x, d);
    case _ =>
  }

  lemma ClosingHoldsNoMore(p: Process, x: TripStep, d: int)
    requires NextTrip(p, x).Some? && Holds(NextTrip(p, x).value, d)
    ensures Holds(p, d)
  {
  }

  ghost predicate KeepsRequest(p: Process, q: Process) {
    q.clock == p.clock && (p.renewer.Leasing? ==> q.renewer.Leasing?)
  }

  lemma AdmittingKeepsRequest(p: Process, a: AcceptStep)
    requires NextAccept(p, a).Some?
    ensures KeepsRequest(p, NextAccept(p, a).value)
  {
  }

  lemma ClosingKeepsRequest(p: Process, x: TripStep)
    requires NextTrip(p, x).Some?
    ensures KeepsRequest(p, NextTrip(p, x).value)
  {
  }

  lemma RenewingKeepsRequest(p: Process, r: RenewStep)
    requires NextRenew(p, r).Some? && IsLocal(Renewing(r))
    ensures KeepsRequest(p, NextRenew(p, r).value)
  {
  }

  lemma LocalKeepsRequests(p: Process, s: Step)
    requires Next(p, s).Some? && IsLocal(s)
    ensures KeepsRequest(p, Next(p, s).value)
  {
    match s
    case Admitting(a) => AdmittingKeepsRequest(p, a);
    case Closing(x) => ClosingKeepsRequest(p, x);
    case Renewing(r) => RenewingKeepsRequest(p, r);
    case _ =>
  }

  // --------------------------------------------------------- events, one at a time

  /** The Lease stays and no clock goes back; attempts may be added on the current
      clock, or be refused. */
  ghost predicate SameLease(k: Setup, w: World, v: World) {
    && Shape(k, w) && Shape(k, v)
    && v.doc == w.doc && v.versions == w.versions
    && (forall g <- k.configs :: w.fences[g].clock <= v.fences[g].clock)
    && (forall a <- v.attempts :: a in w.attempts || (AttemptOk(k, v, a) && AddedLate(w, a)))
  }

  predicate AddedLate(w: World, a: Attempt) {
    && a.fence in w.fences && !a.fate.Landed?
    && (a.fate.InFlight? ==> a.now >= w.fences[a.fence].clock)
  }

  lemma SameLeaseKeepsGood(k: Setup, w: World, v: World, f: Id, d: int)
    requires SameLease(k, w, v) && f in k.configs && Good(k, w, f, d)
    ensures Good(k, v, f, d)
  {
  }

  lemma SameLeaseKeepsAttempts(k: Setup, w: World, v: World)
    requires SameLease(k, w, v)
    requires forall a <- w.attempts :: AttemptOk(k, w, a)
    ensures forall a <- v.attempts :: AttemptOk(k, v, a)
  {
    forall a | a in v.attempts && a in w.attempts ensures AttemptOk(k, v, a) {
      assert AttemptOk(k, w, a);
    }
  }

  lemma SameLeaseKeepsLanded(k: Setup, w: World, v: World)
    requires SameLease(k, w, v) && LandedAreGood(k, w)
    ensures LandedAreGood(k, v)
  {
    forall a | a in v.attempts && a.fence in k.configs && a.fate.Landed? ensures Good(k, v, a.fence, Deadline(k, a)) {
      assert a in w.attempts;
      SameLeaseKeepsGood(k, w, v, a.fence, Deadline(k, a));
    }
  }

  /** Under the same Lease, the processes only need to hold what is already good. */
  lemma SameLeaseKeepsInv(k: Setup, w: World, v: World)
    requires Inv(k, w) && SameLease(k, w, v) && ClocksAgree(k, v.fences)
    requires forall f <- k.configs :: RequestOk(k, v, f)
    requires forall f, d :: f in k.configs && Holds(v.fences[f], d) ==> Good(k, w, f, d)
    ensures Inv(k, v)
  {
    SameLeaseKeepsAttempts(k, w, v);
    SameLeaseKeepsLanded(k, w, v);
    forall f, d | f in k.configs && Holds(v.fences[f], d) ensures Good(k, v, f, d) {
      SameLeaseKeepsGood(k, w, v, f, d);
    }
  }

  function WithFence(w: World, f: Id, p: Process, r: Request): World {
    w.(fences := w.fences[f := p], requests := w.requests[f := r])
  }

  lemma WithFenceKeepsLease(k: Setup, w: World, f: Id, p: Process, r: Request)
    requires Shape(k, w) && ClocksAgree(k, w.fences) && f in k.configs && p.clock == w.fences[f].clock
    ensures SameLease(k, w, WithFence(w, f, p, r))
    ensures ClocksAgree(k, WithFence(w, f, p, r).fences)
  {
    var v := WithFence(w, f, p, r);
    assert v.fences.Keys == w.fences.Keys && v.requests.Keys == w.requests.Keys;
  }

  /** Any event that only gives one fence another process state and request. */
  lemma ReplaceFence(k: Setup, w: World, f: Id, p: Process, r: Request)
    requires Inv(k, w) && f in k.configs
    requires p.clock == w.fences[f].clock
    requires !r.Idle? ==> p.renewer.Leasing?
    requires r.Fetched? ==> SnapshotOk(k, w, r.lease)
    requires r.Awaiting? ==> r.attempt < |w.attempts| && w.attempts[r.attempt].fence == f
    requires forall d :: Holds(p, d) ==> Good(k, w, f, d)
    ensures Inv(k, WithFence(w, f, p, r))
  {
    var v := WithFence(w, f, p, r);
    WithFenceKeepsLease(k, w, f, p, r);
    forall g | g in k.configs ensures RequestOk(k, v, g) {
      assert RequestOk(k, w, g);
    }
    forall g, d | g in k.configs && Holds(v.fences[g], d) ensures Good(k, w, g, d) {
      assert g == f || v.fences[g] == w.fences[g];
    }
    SameLeaseKeepsInv(k, w, v);
  }

  lemma TickKeepsInv(k: Setup, w: World, clocks: map<Id, int>)
    requires Inv(k, w) && CanTick(k, w, clocks)
    ensures Inv(k, NextWorld(k, w, Tick(clocks)).value)
  {
    var v := NextWorld(k, w, Tick(clocks)).value;
    assert v.fences.Keys == w.fences.Keys;
    assert SameLease(k, w, v);
    forall g | g in k.configs ensures RequestOk(k, v, g) {
      assert RequestOk(k, w, g);
    }
    forall g, d | g in k.configs && Holds(v.fences[g], d) ensures Good(k, w, g, d) {
      assert Holds(w.fences[g], d);
    }
    SameLeaseKeepsInv(k, w, v);
  }

  lemma SendKeepsInv(k: Setup, w: World, f: Id)
    requires ValidSetup(k) && Inv(k, w) && NextSend(k, w, f).Some?
    ensures Inv(k, NextSend(k, w, f).value)
  {
    var lease, now := w.requests[f].lease, w.fences[f].clock;
    match Prepare(k.configs[f], lease, now)
    case Err(_) =>
      ReplaceFence(k, w, f, w.fences[f].(renewer := Failed), Idle);
    case Ok(patch) =>
      var v := NextSend(k, w, f).value;
      var a := Attempt(f, lease, now, patch, InFlight);
      assert v.requests.Keys == w.requests.Keys;
      assert RequestOk(k, w, f);
      assert AttemptOk(k, v, a);
      assert SameLease(k, w, v);
      forall g | g in k.configs ensures RequestOk(k, v, g) {
        assert RequestOk(k, w, g);
      }
      SameLeaseKeepsInv(k, w, v);
  }

  lemma RefusalKeepsInv(k: Setup, w: World, i: nat)
    requires Inv(k, w) && i < |w.attempts| && w.attempts[i].fate.InFlight?
    ensures Inv(k, w.(attempts := w.attempts[i := w.attempts[i].(fate := Refused)]))
  {
    var v := w.(attempts := w.attempts[i := w.attempts[i].(fate := Refused)]);
    forall a | a in v.attempts ensures a in w.attempts || (AttemptOk(k, v, a) && AddedLate(w, a)) {
      var j :| 0 <= j < |v.attempts| && v.attempts[j] == a;
      assert AttemptOk(k, w, w.attempts[j]);
      if j != i { assert a == w.attempts[j]; }
    }
    forall g | g in k.configs ensures RequestOk(k, v, g) {
      assert RequestOk(k, w, g);
    }
    SameLeaseKeepsInv(k, w, v);
  }

  /** A patch that applies was built on exactly the Lease it replaces. */
  lemma LandedOnItsSnapshot(k: Setup, w: World, a: Attempt)
    requires ValidSetup(k) && Shape(k, w) && AttemptOk(k, w, a)
    ensures ApplyPatch(w.doc, a.patch).Some? ==>
              && a.basis.resourceVersion == w.doc.resourceVersion
              && DecodeLease(w.doc) == Ok(a.basis)
              && w.doc.holderIdentity == Some(a.basis.holder)
              && ApplyPatch(w.doc, a.patch) == Some(Renewed(w.doc, a.fence, a.now))
    ensures ApplyPatch(w.doc, a.patch).None? ==>
              a.basis.resourceVersion != w.doc.resourceVersion || w.doc.holderIdentity.None?
  {
    PatchIsCompareAndSwap(k.configs[a.fence], a.basis, a.now, w.doc);
  }

  /** The world after attempt i landed as the given version. */
  function AfterLanding(w: World, i: nat, version: string): World
    requires i < |w.attempts|
  {
    var a := w.attempts[i];
    var doc := Renewed(w.doc, a.fence, a.now).(resourceVersion := version);
    w.(doc := doc, versions := w.versions + {version}, attempts := w.attempts[i := a.(fate := Landed(doc))])
  }

  ghost predicate CanLand(k: Setup, w: World, i: nat, version: string) {
    && ValidSetup(k) && Inv(k, w)
    && i < |w.attempts| && w.attempts[i].fate.InFlight?
    && version != "" && version !in w.versions
    && ApplyPatch(w.doc, w.attempts[i].patch).Some?
  }

  /** The heart of exclusion: when fence g takes the Lease from fence f, every deadline
      f ever had is over on f's own clock. */
  lemma TakeoverEndsAuthority(k: Setup, w: World, i: nat, version: string, f: Id, d: int)
    requires CanLand(k, w, i, version) && MarginsCoverSkew(k)
    requires Accepts(k, f) && w.doc.holderIdentity == Some(f) && w.attempts[i].fence != f && Safe(k, w, f, d)
    ensures d <= w.fences[f].clock
  {
    var a := w.attempts[i];
    assert AttemptOk(k, w, a);
    LandedOnItsSnapshot(k, w, a);
    PrepareExactly(k.configs[a.fence], a.basis, a.now);
    assert Accepts(k, a.fence);
    assert f != "";
    calc <= {
      d;
      w.doc.renewTime.instant + Duration(k) + MICROSECOND - 1 - k.configs[f].margin;
      { assert Truncate(a.now) >= w.doc.renewTime.instant + Duration(k); }
      Truncate(a.now) + MICROSECOND - 1 - k.configs[f].margin;
      { assert Truncate(a.now) <= a.now <= w.fences[a.fence].clock; }
      w.fences[a.fence].clock + MICROSECOND - 1 - k.configs[f].margin;
      { assert w.fences[a.fence].clock - w.fences[f].clock <= k.skew; }
      w.fences[f].clock + k.skew + MICROSECOND - 1 - k.configs[f].margin;
      w.fences[f].clock;
    }
  }

  /** A landing outdates every other patch. */
  lemma NothingStaysCurrent(k: Setup, w: World, i: nat, version: string)
    requires CanLand(k, w, i, version)
    ensures forall b <- AfterLanding(w, i, version).attempts :: !Current(AfterLanding(w, i, version), b)
  {
    forall b | b in AfterLanding(w, i, version).attempts && b.fate.InFlight?
      ensures b.basis.resourceVersion != version
    {
      assert b in w.attempts;
      assert AttemptOk(k, w, b);
    }
  }

  lemma LandingKeepsGood(k: Setup, w: World, i: nat, version: string, f: Id, d: int)
    requires CanLand(k, w, i, version)
    requires f in k.configs && Good(k, w, f, d)
    ensures Shape(k, AfterLanding(w, i, version)) && Good(k, AfterLanding(w, i, version), f, d)
  {
    var a := w.attempts[i];
    var v := AfterLanding(w, i, version);
    LandedOnItsSnapshot(k, w, a);
    if f == a.fence {
      assert d <= Deadline(k, a);
      assert a.now <= Truncate(a.now) + MICROSECOND - 1;
    } else if MarginsCoverSkew(k) && w.doc.holderIdentity == Some(f) {
      TakeoverEndsAuthority(k, w, i, version, f, d);
    }
    NothingStaysCurrent(k, w, i, version);
  }

  /** What landing means for the patch itself. */
  lemma LandedAttemptIsGood(k: Setup, w: World, i: nat, version: string)
    requires CanLand(k, w, i, version)
    ensures var v := AfterLanding(w, i, version);
            && Shape(k, v) && AttemptOk(k, v, v.attempts[i])
            && Good(k, v, v.attempts[i].fence, Deadline(k, v.attempts[i]))
  {
    var a := w.attempts[i];
    var v := AfterLanding(w, i, version);
    assert AttemptOk(k, w, a);
    LandedOnItsSnapshot(k, w, a);
    LandedReplyGivesAuthority(k.configs[a.fence], a.basis, a.now, w.doc, version);
    assert a.now <= Truncate(a.now) + MICROSECOND - 1;
    NothingStaysCurrent(k, w, i, version);
  }

  lemma LandingKeepsInv(k: Setup, w: World, i: nat, version: string)
    requires CanLand(k, w, i, version)
    ensures Inv(k, AfterLanding(w, i, version))
  {
    var v := AfterLanding(w, i, version);
    LandedAttemptIsGood(k, w, i, version);
    LandedOnItsSnapshot(k, w, w.attempts[i]);
    forall a | a in v.attempts ensures AttemptOk(k, v, a) && (a.fate.Landed? ==> Good(k, v, a.fence, Deadline(k, a))) {
      var j :| 0 <= j < |v.attempts| && v.attempts[j] == a;
      if j != i {
        assert a == w.attempts[j] && AttemptOk(k, w, a);
        if a.fate.Landed? {
          LandingKeepsGood(k, w, i, version, a.fence, Deadline(k, a));
        }
      }
    }
    forall g | g in k.configs ensures RequestOk(k, v, g) {
      assert RequestOk(k, w, g);
    }
    forall g, d | g in k.configs && Holds(v.fences[g], d) ensures Good(k, v, g, d) {
      LandingKeepsGood(k, w, i, version, g, d);
    }
  }

  lemma LandKeepsInv(k: Setup, w: World, i: nat, version: string)
    requires ValidSetup(k) && Inv(k, w) && NextLand(w, i, version).Some?
    ensures Inv(k, NextLand(w, i, version).value)
  {
    var a := w.attempts[i];
    assert AttemptOk(k, w, a);
    LandedOnItsSnapshot(k, w, a);
    if ApplyPatch(w.doc, a.patch).None? {
      RefusalKeepsInv(k, w, i);
    } else {
      assert NextLand(w, i, version).value == AfterLanding(w, i, version);
      LandingKeepsInv(k, w, i, version);
    }
  }

  lemma AnswerKeepsInv(k: Setup, w: World, f: Id)
    requires ValidSetup(k) && Inv(k, w) && NextAnswer(k, w, f).Some?
    ensures Inv(k, NextAnswer(k, w, f).value)
  {
    assert RequestOk(k, w, f);
    var a := w.attempts[w.requests[f].attempt];
    assert AttemptOk(k, w, a);
    match a.fate
    case Refused =>
      ReplaceFence(k, w, f, w.fences[f].(renewer := Failed), Idle);
    case Landed(doc) =>
      var p := NextRenew(w.fences[f], Grant(Deadline(k, a))).value;
      forall d | Holds(p, d) ensures Good(k, w, f, d) {
        assert d == Deadline(k, a) || Holds(w.fences[f], d);
      }
      ReplaceFence(k, w, f, p, Idle);
  }

  lemma FetchKeepsInv(k: Setup, w: World, f: Id)
    requires Inv(k, w) && NextFetch(w, f).Some?
    ensures Inv(k, NextFetch(w, f).value)
  {
    match DecodeLease(w.doc)
    case Err(_) =>
      ReplaceFence(k, w, f, w.fences[f].(renewer := Failed), Idle);
    case Ok(lease) =>
      ReplaceFence(k, w, f, w.fences[f], Fetched(lease));
      assert w.fences[f := w.fences[f]] == w.fences;
  }

  lemma LocalKeepsInv(k: Setup, w: World, f: Id, s: Step)
    requires Inv(k, w) && NextLocal(w, f, s).Some?
    ensures Inv(k, NextLocal(w, f, s).value)
  {
    var p := Next(w.fences[f], s).value;
    LocalKeepsRequests(w.fences[f], s);
    assert RequestOk(k, w, f);
    forall d | Holds(p, d) ensures Good(k, w, f, d) {
      OnlyGrantsAreHeld(w.fences[f], s, d);
    }
    ReplaceFence(k, w, f, p, w.requests[f]);
    assert w.requests[f := w.requests[f]] == w.requests;
  }

  lemma NextKeepsInv(k: Setup, w: World, e: Event)
    requires ValidSetup(k) && Inv(k, w) && NextWorld(k, w, e).Some?
    ensures Inv(k, NextWorld(k, w, e).value)
  {
    match e
    case Tick(clocks) => TickKeepsInv(k, w, clocks);
    case Fetch(f) => FetchKeepsInv(k, w, f);
    case Send(f) => SendKeepsInv(k, w, f);
    case Land(i, version) => LandKeepsInv(k, w, i, version);
    case Answer(f) => AnswerKeepsInv(k, w, f);
    case GiveUp(f) => ReplaceFence(k, w, f, w.fences[f].(renewer := Failed), Idle);
    case Local(f, s) => LocalKeepsInv(k, w, f, s);
    case Restart(f) => ReplaceFence(k, w, f, Boot(w.fences[f].clock, k.maxAge[f]), Idle);
  }

  lemma {:induction false} RunKeepsInv(k: Setup, w: World, events: seq<Event>)
    requires ValidSetup(k) && Inv(k, w) && Run(k, w, events).Some?
    ensures Inv(k, Run(k, w, events).value)
  {
    if events == [] {
    } else {
      RunKeepsInv(k, w, events[..|events| - 1]);
      NextKeepsInv(k, Run(k, w, events[..|events| - 1]).value, events[|events| - 1]);
    }
  }

  lemma ReachableInv(k: Setup, w: World)
    requires ValidSetup(k) && Reachable(k, w)
    ensures Inv(k, w)
  {
    var start, events :| Init(k, start) && Run(k, start, events) == Some(w);
    InitInv(k, start);
    RunKeepsInv(k, start, events);
  }

  /** Mutual exclusion: whatever replies are lost and patches delayed, no two fences
      ever have a deadline ahead of their own clocks, and only the Lease's holder can. */
  lemma MutualExclusion(k: Setup, w: World, f: Id, g: Id)
    requires ValidSetup(k) && MarginsCoverSkew(k) && Reachable(k, w)
    requires Live(w, f) && Live(w, g)
    ensures f == g && w.doc.holderIdentity == Some(f)
  {
    ReachableInv(k, w);
    var d :| LiveDeadline(w.fences[f], d);
    var e :| LiveDeadline(w.fences[g], e);
    assert Good(k, w, f, d) && Good(k, w, g, e);
  }

  lemma TakeoverEndsHeldAuthority(k: Setup, w: World, i: nat, version: string, f: Id, d: int)
    requires ValidSetup(k) && MarginsCoverSkew(k) && Inv(k, w) && f in k.configs
    requires NextLand(w, i, version).Some? && w.doc.holderIdentity == Some(f) && Holds(w.fences[f], d)
    requires NextLand(w, i, version).value.doc.holderIdentity != Some(f)
    ensures d <= w.fences[f].clock
  {
    assert Good(k, w, f, d);
    assert AttemptOk(k, w, w.attempts[i]);
    LandedOnItsSnapshot(k, w, w.attempts[i]);
    assert CanLand(k, w, i, version);
    TakeoverEndsAuthority(k, w, i, version, f, d);
  }

  /** At every takeover of every run, whatever deadline the previous holder published or
      was about to publish has already passed on its own clock. */
  lemma EveryTakeoverIsLate(k: Setup, w: World, e: Event, f: Id, d: int)
    requires ValidSetup(k) && MarginsCoverSkew(k) && Reachable(k, w) && e.Land? && NextWorld(k, w, e).Some?
    requires f in k.configs && f in w.fences && Holds(w.fences[f], d)
    requires w.doc.holderIdentity == Some(f) && NextWorld(k, w, e).value.doc.holderIdentity != Some(f)
    ensures d <= w.fences[f].clock
  {
    ReachableInv(k, w);
    TakeoverEndsHeldAuthority(k, w, e.i, e.version, f, d);
  }
}
