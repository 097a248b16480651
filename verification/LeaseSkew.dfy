/** Exactly which clock skew the safety margins tolerate. */
module LeaseSkew {
  import opened Outcomes
  import opened LeaseClient
  import opened FenceProcess
  import opened LeaseCluster
  import opened LeaseExclusion

  lemma Extend(k: Setup, w: World, e: Event) returns (v: World)
    requires Reachable(k, w) && NextWorld(k, w, e).Some?
    ensures v == NextWorld(k, w, e).value && Reachable(k, v)
  {
    var start, events :| Init(k, start) && Run(k, start, events) == Some(w);
    v := NextWorld(k, w, e).value;
    assert (events + [e])[..|events + [e]| - 1] == events;
    assert Run(k, start, events + [e]) == Some(v);
  }

  /** A fence that has just booted, with nothing requested, in front of a Lease it may take. */
  ghost predicate ReadyToAcquire(k: Setup, w: World, f: Id, version: string) {
    && ValidSetup(k) && f in k.configs && f in k.maxAge && f in w.fences && f in w.requests
    && w.fences[f] == Boot(w.fences[f].clock, k.maxAge[f]) && w.requests[f] == Idle
    && version != "" && version !in w.versions
    && w.doc.holderIdentity.Some?
    && DecodeLease(w.doc).Ok?
    && Prepare(k.configs[f], DecodeLease(w.doc).value, w.fences[f].clock).Ok?
  }

  /** Everything but fence f and the Lease is as before. */
  predicate OnlyChanged(w: World, v: World, f: Id) {
    && v.fences.Keys == w.fences.Keys && v.requests.Keys == w.requests.Keys
    && (forall g <- w.fences :: g != f ==> v.fences[g] == w.fences[g])
    && (forall g <- w.requests :: g != f ==> v.requests[g] == w.requests[g])
  }

  /** No patch was put in flight that still is. */
  predicate NothingNewInFlight(w: World, v: World) {
    forall a <- v.attempts :: a.fate.InFlight? ==> a in w.attempts
  }

  lemma DoObserve(k: Setup, w: World, f: Id) returns (v: World)
    requires f in w.fences && f in k.maxAge
    requires w.fences[f] == Boot(w.fences[f].clock, k.maxAge[f])
    ensures NextWorld(k, w, Local(f, Renewing(Observe("u", "1")))) == Some(v)
    ensures v == w.(fences := w.fences[f := w.fences[f].(f := w.fences[f].f.(clientUID := "u", clientIP := "1"),
                                                         renewer := Leasing)])
  {
    v := NextWorld(k, w, Local(f, Renewing(Observe("u", "1")))).value;
  }

  lemma DoFetch(k: Setup, w: World, f: Id, lease: Lease) returns (v: World)
    requires f in w.fences && f in w.requests && w.fences[f].renewer.Leasing? && w.requests[f].Idle?
    requires DecodeLease(w.doc) == Ok(lease)
    ensures NextWorld(k, w, Fetch(f)) == Some(v)
    ensures v == w.(requests := w.requests[f := Fetched(lease)])
  {
    v := NextWorld(k, w, Fetch(f)).value;
  }

  lemma DoSend(k: Setup, w: World, f: Id, lease: Lease) returns (v: World)
    requires f in w.fences && f in w.requests && f in k.configs
    requires w.fences[f].renewer.Leasing? && w.requests[f] == Fetched(lease)
    requires Prepare(k.configs[f], lease, w.fences[f].clock).Ok?
    ensures NextWorld(k, w, Send(f)) == Some(v)
    ensures v == w.(attempts := w.attempts + [Attempt(f, lease, w.fences[f].clock,
                                                      PatchFor(k.configs[f], lease, w.fences[f].clock), InFlight)],
                    requests := w.requests[f := Awaiting(|w.attempts|)])
  {
    v := NextWorld(k, w, Send(f)).value;
  }

  lemma DoLand(k: Setup, w: World, i: nat, version: string) returns (v: World)
    requires i < |w.attempts| && w.attempts[i].fate.InFlight? && version != "" && version !in w.versions
    requires w.attempts[i].fence in k.configs && k.configs[w.attempts[i].fence].holder == w.attempts[i].fence
    requires w.attempts[i].patch == PatchFor(k.configs[w.attempts[i].fence], w.attempts[i].basis, w.attempts[i].now)
    requires w.doc.resourceVersion == w.attempts[i].basis.resourceVersion
    requires w.doc.holderIdentity == Some(w.attempts[i].basis.holder)
    ensures NextWorld(k, w, Land(i, version)) == Some(v)
    ensures v == AfterLanding(w, i, version)
  {
    PatchIsCompareAndSwap(k.configs[w.attempts[i].fence], w.attempts[i].basis, w.attempts[i].now, w.doc);
    v := NextWorld(k, w, Land(i, version)).value;
  }

  lemma DoAnswer(k: Setup, w: World, f: Id, d: int) returns (v: World)
    requires f in w.fences && f in w.requests && f in k.configs
    requires w.fences[f].renewer.Leasing? && w.requests[f].Awaiting? && w.requests[f].attempt < |w.attempts|
    requires var a := w.attempts[w.requests[f].attempt];
             a.fate.Landed? && Conclude(k.configs[f], a.fate.doc, a.now) == Ok(d)
    ensures NextWorld(k, w, Answer(f)) == Some(v)
    ensures v == w.(requests := w.requests[f := Idle], fences := w.fences[f := w.fences[f].(renewer := Granted(d))])
  {
    v := NextWorld(k, w, Answer(f)).value;
  }

  lemma DoListen(k: Setup, w: World, f: Id) returns (v: World)
    requires f in w.fences && w.fences[f].renewer.Granted? && w.fences[f].acceptor.NotStarted?
    requires w.fences[f].clock < w.fences[f].renewer.deadline
    ensures NextWorld(k, w, Local(f, Renewing(StartListener(true)))) == Some(v) && f in v.fences
    ensures v == w.(fences := w.fences[f := v.fences[f]])
    ensures v.fences[f].clock == w.fences[f].clock && v.fences[f].renewer == Listened(w.fences[f].renewer.deadline)
  {
    v := NextWorld(k, w, Local(f, Renewing(StartListener(true)))).value;
  }

  lemma DoAnnounce(k: Setup, w: World, f: Id) returns (v: World)
    requires f in w.fences && w.fences[f].renewer.Listened?
    ensures NextWorld(k, w, Local(f, Renewing(Announce))) == Some(v) && f in v.fences
    ensures v == w.(fences := w.fences[f := v.fences[f]])
    ensures v.fences[f].clock == w.fences[f].clock
    ensures v.fences[f].f.authorityDeadline == Some(w.fences[f].renewer.deadline)
  {
    v := NextWorld(k, w, Local(f, Renewing(Announce))).value;
  }

  /** Up to the reply: the Lease is written, the reply has not been read. */
  lemma LandingPath(k: Setup, w: World, f: Id, version: string) returns (v1: World, v2: World, v3: World, v4: World)
    requires ReadyToAcquire(k, w, f, version)
    ensures NextWorld(k, w, Local(f, Renewing(Observe("u", "1")))) == Some(v1)
    ensures NextWorld(k, v1, Fetch(f)) == Some(v2)
    ensures NextWorld(k, v2, Send(f)) == Some(v3)
    ensures NextWorld(k, v3, Land(|w.attempts|, version)) == Some(v4)
    ensures OnlyChanged(w, v4, f)
    ensures v4.doc == Renewed(w.doc, f, w.fences[f].clock).(resourceVersion := version)
    ensures v4.versions == w.versions + {version}
    ensures v4.fences[f].renewer.Leasing? && v4.fences[f].acceptor.NotStarted?
    ensures v4.fences[f].clock == w.fences[f].clock
    ensures v4.requests[f] == Awaiting(|w.attempts|) && |w.attempts| < |v4.attempts|
    ensures var a := v4.attempts[|w.attempts|];
            a.now == w.fences[f].clock && a.fate == Landed(v4.doc)
    ensures NothingNewInFlight(w, v4)
  {
    var lease := DecodeLease(w.doc).value;
    v1 := DoObserve(k, w, f);
    v2 := DoFetch(k, v1, f, lease);
    v3 := DoSend(k, v2, f, lease);
    v4 := DoLand(k, v3, |w.attempts|, version);
  }

  /** From the reply to a published authority deadline. */
  lemma GrantPath(k: Setup, w: World, f: Id, d: int) returns (v1: World, v2: World, v3: World)
    requires f in w.fences && f in w.requests && f in k.configs
    requires w.fences[f].renewer.Leasing? && w.fences[f].acceptor.NotStarted? && w.fences[f].clock < d
    requires w.requests[f].Awaiting? && w.requests[f].attempt < |w.attempts|
    requires var a := w.attempts[w.requests[f].attempt];
             a.fate.Landed? && Conclude(k.configs[f], a.fate.doc, a.now) == Ok(d)
    ensures NextWorld(k, w, Answer(f)) == Some(v1)
    ensures NextWorld(k, v1, Local(f, Renewing(StartListener(true)))) == Some(v2)
    ensures NextWorld(k, v2, Local(f, Renewing(Announce))) == Some(v3)
    ensures OnlyChanged(w, v3, f) && v3.doc == w.doc && v3.versions == w.versions && v3.attempts == w.attempts
    ensures v3.fences[f].clock == w.fences[f].clock && v3.fences[f].f.authorityDeadline == Some(d)
  {
    v1 := DoAnswer(k, w, f, d);
    v2 := DoListen(k, v1, f);
    v3 := DoAnnounce(k, v2, f);
  }

  lemma Follow(k: Setup, w: World, e: Event, v: World)
    requires Reachable(k, w) && NextWorld(k, w, e) == Some(v)
    ensures Reachable(k, v)
  {
    var u := Extend(k, w, e);
  }

  lemma FollowFour(k: Setup, w: World, e1: Event, v1: World, e2: Event, v2: World, e3: Event, v3: World, e4: Event,
                   v4: World)
    requires Reachable(k, w)
    requires NextWorld(k, w, e1) == Some(v1) && NextWorld(k, v1, e2) == Some(v2)
    requires NextWorld(k, v2, e3) == Some(v3) && NextWorld(k, v3, e4) == Some(v4)
    ensures Reachable(k, v4)
  {
    assert Reachable(k, v3) by {
      assert Reachable(k, v1) by { Follow(k, w, e1, v1); }
      assert Reachable(k, v2) by { Follow(k, v1, e2, v2); }
      Follow(k, v2, e3, v3);
    }
    Follow(k, v3, e4, v4);
  }

  lemma FollowThree(k: Setup, w: World, e1: Event, v1: World, e2: Event, v2: World, e3: Event, v3: World)
    requires Reachable(k, w)
    requires NextWorld(k, w, e1) == Some(v1) && NextWorld(k, v1, e2) == Some(v2) && NextWorld(k, v2, e3) == Some(v3)
    ensures Reachable(k, v3)
  {
    assert Reachable(k, v2) by {
      assert Reachable(k, v1) by { Follow(k, w, e1, v1); }
      Follow(k, v1, e2, v2);
    }
    Follow(k, v2, e3, v3);
  }

  /** The Lease is written and the fence waits for the reply. */
  predicate WaitsForLanded(w: World, v: World, f: Id, version: string) {
    && OnlyChanged(w, v, f) && NothingNewInFlight(w, v) && f in w.fences && f in v.requests
    && v.doc == Renewed(w.doc, f, w.fences[f].clock).(resourceVersion := version)
    && v.versions == w.versions + {version}
    && v.fences[f].renewer.Leasing? && v.fences[f].acceptor.NotStarted? && v.fences[f].clock == w.fences[f].clock
    && v.requests[f].Awaiting? && v.requests[f].attempt < |v.attempts|
    && v.attempts[v.requests[f].attempt].now == w.fences[f].clock
    && v.attempts[v.requests[f].attempt].fate == Landed(v.doc)
  }

  lemma AcquireUpToReply(k: Setup, w: World, f: Id, version: string) returns (v: World)
    requires Reachable(k, w) && ReadyToAcquire(k, w, f, version)
    ensures Reachable(k, v) && WaitsForLanded(w, v, f, version)
  {
    var v1, v2, v3, v4 := LandingPath(k, w, f, version);
    v := v4;
    FollowFour(k, w, Local(f, Renewing(Observe("u", "1"))), v1, Fetch(f), v2, Send(f), v3,
               Land(|w.attempts|, version), v4);
  }

  lemma AcquireFromReply(k: Setup, w: World, f: Id, version: string, u: World, d: int) returns (v: World)
    requires Reachable(k, u) && WaitsForLanded(w, u, f, version) && f in k.configs
    requires Conclude(k.configs[f], u.doc, w.fences[f].clock) == Ok(d) && w.fences[f].clock < d
    ensures Reachable(k, v)
    ensures OnlyChanged(u, v, f) && v.doc == u.doc && v.versions == u.versions && v.attempts == u.attempts
    ensures v.fences[f].clock == w.fences[f].clock && v.fences[f].f.authorityDeadline == Some(d)
  {
    var v1, v2, v3 := GrantPath(k, u, f, d);
    v := v3;
    FollowThree(k, u, Answer(f), v1, Local(f, Renewing(StartListener(true))), v2, Local(f, Renewing(Announce)), v3);
  }

  function GrantedDeadline(k: Setup, w: World, f: Id): int
    requires f in k.configs && f in w.fences && DecodeLease(w.doc).Ok?
  {
    w.fences[f].clock + DecodeLease(w.doc).value.duration - k.configs[f].margin
  }

  lemma ReplyGrants(k: Setup, w: World, f: Id, version: string)
    requires ReadyToAcquire(k, w, f, version)
    ensures Conclude(k.configs[f], Renewed(w.doc, f, w.fences[f].clock).(resourceVersion := version), w.fences[f].clock)
            == Ok(GrantedDeadline(k, w, f))
    ensures w.fences[f].clock < GrantedDeadline(k, w, f)
  {
    LandedReplyGivesAuthority(k.configs[f], DecodeLease(w.doc).value, w.fences[f].clock, w.doc, version);
  }

  /** The whole acquisition. */
  lemma Acquire(k: Setup, w: World, f: Id, version: string) returns (v: World)
    requires Reachable(k, w) && ReadyToAcquire(k, w, f, version)
    ensures Reachable(k, v)
    ensures Acquired(k, w, v, f, version)
  {
    ReplyGrants(k, w, f, version);
    var u := AcquireUpToReply(k, w, f, version);
    v := AcquireFromReply(k, w, f, version, u, GrantedDeadline(k, w, f));
    OnlyChangedTwice(w, u, v, f);
  }

  lemma OnlyChangedTwice(u: World, v: World, w: World, f: Id)
    requires OnlyChanged(u, v, f) && OnlyChanged(v, w, f)
    ensures OnlyChanged(u, w, f)
  {
  }

  ghost predicate Acquired(k: Setup, w: World, v: World, f: Id, version: string)
    requires ReadyToAcquire(k, w, f, version)
  {
    && OnlyChanged(w, v, f) && NothingNewInFlight(w, v)
    && v.doc == Renewed(w.doc, f, w.fences[f].clock).(resourceVersion := version)
    && v.versions == w.versions + {version}
    && v.fences[f].clock == w.fences[f].clock
    && v.fences[f].f.authorityDeadline
       == Some(GrantedDeadline(k, w, f))
  }

  // ----------------------------------------- a run with two authorities at once

  /** A Lease nobody holds, fence g's clock ahead of all others by the given skew. */
  function FirstWorld(k: Setup, g: Id, ahead: int): World
    requires k.maxAge.Keys == k.configs.Keys
  {
    World(
      LeaseDoc("1", Some(""), Some(k.seconds), Absent),
      {"1"},
      map h | h in k.configs :: Boot(if h == g then MICROSECOND - 1 + ahead else MICROSECOND - 1, k.maxAge[h]),
      map h | h in k.configs :: Idle,
      [])
  }

  lemma FirstWorldReachable(k: Setup, g: Id, ahead: int)
    requires ValidSetup(k) && 0 <= ahead <= k.skew
    ensures Reachable(k, FirstWorld(k, g, ahead))
  {
    var w := FirstWorld(k, g, ahead);
    assert Init(k, w);
    assert Run(k, w, []) == Some(w);
  }

  lemma TickTo(k: Setup, w: World, clocks: map<Id, int>) returns (v: World)
    requires Reachable(k, w) && CanTick(k, w, clocks)
    ensures Reachable(k, v)
    ensures v == Ticked(w, clocks)
  {
    v := Extend(k, w, Tick(clocks));
  }

  function Behind(k: Setup, g: Id, ahead: int): map<Id, int> {
    map h | h in k.configs :: if h == g then Duration(k) else Duration(k) - ahead
  }

  predicate Overlapping(k: Setup, f: Id, g: Id, ahead: int) {
    && ValidSetup(k) && f in k.configs && f != g
    && ValidDuration(k.configs[f], Duration(k))
    && 0 <= ahead <= k.skew && ahead <= Duration(k) - (MICROSECOND - 1)
  }

  lemma FirstIsReady(k: Setup, f: Id, g: Id, ahead: int)
    requires Overlapping(k, f, g, ahead)
    ensures ReadyToAcquire(k, FirstWorld(k, g, ahead), f, "2")
    ensures GrantedDeadline(k, FirstWorld(k, g, ahead), f) == MICROSECOND - 1 + Duration(k) - k.configs[f].margin
    ensures Renewed(FirstWorld(k, g, ahead).doc, f, MICROSECOND - 1).(resourceVersion := "2")
            == LeaseDoc("2", Some(f), Some(k.seconds), At(0))
  {
  }

  predicate FirstAcquired(k: Setup, w: World, f: Id, g: Id, ahead: int)
    requires Overlapping(k, f, g, ahead)
  {
    && OnlyChanged(FirstWorld(k, g, ahead), w, f) && w.versions == {"1", "2"}
    && (forall a <- w.attempts :: !a.fate.InFlight?)
    && w.doc == LeaseDoc("2", Some(f), Some(k.seconds), At(0))
    && w.fences[f].clock == MICROSECOND - 1
    && w.fences[f].f.authorityDeadline == Some(MICROSECOND - 1 + Duration(k) - k.configs[f].margin)
  }

  lemma FirstIsAcquired(k: Setup, f: Id, g: Id, ahead: int, w: World)
    requires Overlapping(k, f, g, ahead)
    requires ReadyToAcquire(k, FirstWorld(k, g, ahead), f, "2")
    requires Acquired(k, FirstWorld(k, g, ahead), w, f, "2")
    ensures FirstAcquired(k, w, f, g, ahead)
  {
    FirstIsReady(k, f, g, ahead);
    assert FirstWorld(k, g, ahead).fences[f].clock == MICROSECOND - 1;
  }

  lemma ClocksMayAdvance(k: Setup, f: Id, g: Id, ahead: int, w: World)
    requires Overlapping(k, f, g, ahead)
    requires FirstAcquired(k, w, f, g, ahead)
    ensures CanTick(k, w, Behind(k, g, ahead))
  {
    forall h | h in k.configs ensures w.fences[h].clock <= Behind(k, g, ahead)[h] {
      assert h == f || w.fences[h] == FirstWorld(k, g, ahead).fences[h];
    }
    BehindWithinSkew(k, g, ahead);
  }

  lemma BehindWithinSkew(k: Setup, g: Id, ahead: int)
    requires 0 <= ahead <= k.skew
    ensures Behind(k, g, ahead).Keys == k.configs.Keys
    ensures forall h, i :: h in k.configs && i in k.configs ==>
        Behind(k, g, ahead)[h] - Behind(k, g, ahead)[i] <= k.skew
  {
  }

  /** Fence f has authority by a reading 999 ns past a microsecond; then its clock,
      behind by the skew, is when g's clock sees the Lease expire. */
  lemma FirstHolder(k: Setup, f: Id, g: Id, ahead: int) returns (w: World)
    requires Overlapping(k, f, g, ahead)
    ensures Reachable(k, w) && FirstHolds(k, w, f, g, ahead)
  {
    FirstWorldReachable(k, g, ahead);
    FirstIsReady(k, f, g, ahead);
    var v := Acquire(k, FirstWorld(k, g, ahead), f, "2");
    FirstIsAcquired(k, f, g, ahead, v);
    ClocksMayAdvance(k, f, g, ahead, v);
    FirstHoldsAfterTick(k, f, g, ahead, v);
    w := TickTo(k, v, Behind(k, g, ahead));
  }

  function Ticked(w: World, clocks: map<Id, int>): World
    requires clocks.Keys == w.fences.Keys
  {
    w.(fences := map f | f in w.fences :: w.fences[f].(clock := clocks[f]))
  }

  lemma FirstHoldsAfterTick(k: Setup, f: Id, g: Id, ahead: int, w: World)
    requires Overlapping(k, f, g, ahead)
    requires FirstAcquired(k, w, f, g, ahead)
    ensures FirstHolds(k, Ticked(w, Behind(k, g, ahead)), f, g, ahead)
  {
    var v := Ticked(w, Behind(k, g, ahead));
    assert g in k.configs ==> w.fences[g] == FirstWorld(k, g, ahead).fences[g] && w.requests[g] == Idle;
    assert v.fences.Keys == w.fences.Keys;
  }

  predicate FirstHolds(k: Setup, w: World, f: Id, g: Id, ahead: int)
    requires Overlapping(k, f, g, ahead)
  {
    && w.fences.Keys == k.configs.Keys && w.requests.Keys == k.configs.Keys && w.versions == {"1", "2"}
    && w.doc == LeaseDoc("2", Some(f), Some(k.seconds), At(0))
    && w.fences[f].clock == Duration(k) - ahead
    && w.fences[f].f.authorityDeadline == Some(MICROSECOND - 1 + Duration(k) - k.configs[f].margin)
    && (forall a <- w.attempts :: !a.fate.InFlight?)
    && (g in k.configs ==> w.fences[g] == Boot(Duration(k), k.maxAge[g]) && w.requests[g] == Idle)
  }

  lemma WholeSeconds(seconds: int)
    ensures Truncate(seconds * SECOND) == seconds * SECOND
  {
    assert seconds * SECOND == (seconds * 1_000_000) * MICROSECOND;
  }

  lemma SecondIsReady(k: Setup, w: World, f: Id, g: Id, ahead: int)
    requires Overlapping(k, f, g, ahead) && FirstHolds(k, w, f, g, ahead)
    requires g in k.configs && ValidDuration(k.configs[g], Duration(k))
    ensures ReadyToAcquire(k, w, g, "3") && GrantedDeadline(k, w, g) > Duration(k)
  {
    WholeSeconds(k.seconds);
    PrepareExactly(k.configs[g], DecodeLease(w.doc).value, w.fences[g].clock);
  }

  /** If some fence's margin does not cover the skew and the lost part of a
      microsecond, there is a run in which it and another fence both have a published
      authority deadline ahead of their own clocks. */
  lemma Overlap(k: Setup, f: Id, g: Id) returns (w: World)
    requires ValidSetup(k) && f in k.configs && g in k.configs && f != g
    requires ValidDuration(k.configs[f], Duration(k)) && ValidDuration(k.configs[g], Duration(k))
    requires k.configs[f].margin < k.skew + MICROSECOND - 1
    ensures Reachable(k, w) && Live(w, f) && Live(w, g)
  {
    var most := Duration(k) - (MICROSECOND - 1);
    var ahead := if k.skew <= most then k.skew else most;
    var v := FirstHolder(k, f, g, ahead);
    SecondIsReady(k, v, f, g, ahead);
    w := Acquire(k, v, g, "3");
    assert w.fences[f] == v.fences[f];
    assert LiveDeadline(w.fences[f], MICROSECOND - 1 + Duration(k) - k.configs[f].margin);
    assert LiveDeadline(w.fences[g], GrantedDeadline(k, v, g));
  }

  /** Exactly when exclusion holds over all runs: if and only if of any two fences that accept
      the Lease's duration, each one's safety margin covers the clock skew plus the 999 ns that
      truncation may lose. */
  lemma ExclusionExactly(k: Setup)
    requires ValidSetup(k)
    ensures MarginsCoverSkew(k) <==>
            forall w, f, g :: Reachable(k, w) && Live(w, f) && Live(w, g) ==> f == g
  {
    if MarginsCoverSkew(k) {
      forall w, f, g | Reachable(k, w) && Live(w, f) && Live(w, g) ensures f == g {
        MutualExclusion(k, w, f, g);
      }
    } else {
      var f, g := UncoveredPair(k);
      var w := Overlap(k, f, g);
    }
  }

  lemma UncoveredPair(k: Setup) returns (f: Id, g: Id)
    requires !MarginsCoverSkew(k)
    ensures Accepts(k, f) && Accepts(k, g) && f != g && k.configs[f].margin < k.skew + MICROSECOND - 1
  {
    f, g :| f in k.configs && g in k.configs && Accepts(k, f) && Accepts(k, g) && f != g
         && k.skew + MICROSECOND - 1 > k.configs[f].margin;
  }
}
