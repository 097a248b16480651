/** The writes of the Lease over whole runs: one linear chain of compare-and-swaps, and
    renewal times that do not go back. */
module LeaseChain {
  import opened Outcomes
  import opened LeaseClient
  import opened LeaseCluster
  import opened LeaseExclusion

  lemma TruncateMonotone(s: int, t: int)
    requires s <= t
    ensures Truncate(s) <= Truncate(t)
  {
  }

  /** The Lease names this fence and carries a renewal time. */
  predicate HeldSince(w: World, f: Id, t: int) {
    w.doc.holderIdentity == Some(f) && w.doc.renewTime == At(t)
  }

  /** The holder's renewal time came from its own clock, before any patch of its that
      would still land was stamped. */
  ghost predicate RenewInv(k: Setup, w: World)
    requires Shape(k, w)
  {
    forall f, t :: f in k.configs && HeldSince(w, f, t) ==>
                     && t <= Truncate(w.fences[f].clock)
                     && (forall a <- w.attempts :: a.fence == f && Current(w, a) ==> t <= Truncate(a.now))
  }

  /** No two patches built on the same version have landed. */
  ghost predicate OneLanding(w: World) {
    forall i, j :: 0 <= i < j < |w.attempts| && w.attempts[i].fate.Landed? && w.attempts[j].fate.Landed? ==>
                     w.attempts[i].basis.resourceVersion != w.attempts[j].basis.resourceVersion
  }

  ghost predicate ChainInv(k: Setup, w: World) {
    Inv(k, w) && RenewInv(k, w) && OneLanding(w)
  }

  lemma SameDocKeepsRenewInv(k: Setup, w: World, v: World)
    requires SameLease(k, w, v) && RenewInv(k, w)
    ensures RenewInv(k, v)
  {
    forall f, t | f in k.configs && HeldSince(v, f, t)
      ensures t <= Truncate(v.fences[f].clock)
      ensures forall a <- v.attempts :: a.fence == f && Current(v, a) ==> t <= Truncate(a.now)
    {
      assert HeldSince(w, f, t);
      TruncateMonotone(w.fences[f].clock, v.fences[f].clock);
      forall a | a in v.attempts && a.fence == f && Current(v, a) ensures t <= Truncate(a.now) {
        if a !in w.attempts {
          TruncateMonotone(w.fences[f].clock, a.now);
        }
      }
    }
  }

  lemma LandingKeepsChain(k: Setup, w: World, i: nat, version: string)
    requires CanLand(k, w, i, version) && OneLanding(w)
    requires Inv(k, AfterLanding(w, i, version))
    ensures RenewInv(k, AfterLanding(w, i, version)) && OneLanding(AfterLanding(w, i, version))
  {
    var a := w.attempts[i];
    assert AttemptOk(k, w, a);
    LandedOnItsSnapshot(k, w, a);
    NothingStaysCurrent(k, w, i, version);
    TruncateMonotone(a.now, w.fences[a.fence].clock);
    forall j | 0 <= j < |w.attempts| && j != i && w.attempts[j].fate.Landed?
      ensures w.attempts[j].basis.resourceVersion != a.basis.resourceVersion
    {
      assert AttemptOk(k, w, w.attempts[j]);
    }
  }

  /** What an event of one fence alone changes: that fence, and a new patch at most. */
  lemma FenceEvent(k: Setup, w: World, e: Event, f: Id)
    requires Shape(k, w) && NextWorld(k, w, e).Some?
    requires e == Fetch(f) || e == Answer(f) || e == GiveUp(f) || e == Restart(f) || (e.Local? && e.f == f)
             || (e == Send(f) && NextWorld(k, w, e).value.attempts == w.attempts)
    ensures var v := NextWorld(k, w, e).value;
            f in w.fences && f in v.fences && f in v.requests && v == WithFence(w, f, v.fences[f], v.requests[f])
            && v.fences[f].clock == w.fences[f].clock
  {
    var v := NextWorld(k, w, e).value;
    match e
    case Fetch(_) => assert v.fences == w.fences[f := v.fences[f]];
    case Local(_, s) =>
      LocalKeepsRequests(w.fences[f], s);
      assert v.requests == w.requests[f := v.requests[f]];
    case _ =>
  }

  /** The events that leave the Lease alone. */
  lemma QuietEvent(k: Setup, w: World, e: Event)
    requires ValidSetup(k) && Inv(k, w) && NextWorld(k, w, e).Some? && Inv(k, NextWorld(k, w, e).value)
    requires e.Land? ==> ApplyPatch(w.doc, w.attempts[e.i].patch).None?
    ensures SameLease(k, w, NextWorld(k, w, e).value)
    ensures OneLanding(w) ==> OneLanding(NextWorld(k, w, e).value)
  {
    var v := NextWorld(k, w, e).value;
    match e
    case Tick(_) =>
    case Send(f) =>
      if v.attempts == w.attempts {
        FenceEvent(k, w, e, f);
        WithFenceKeepsLease(k, w, f, v.fences[f], v.requests[f]);
      } else {
        SendIsQuiet(k, w, f);
      }
    case Land(i, version) => RefusalIsQuiet(k, w, i, version);
    case Fetch(f) => FenceEvent(k, w, e, f); WithFenceKeepsLease(k, w, f, v.fences[f], v.requests[f]);
    case Answer(f) => FenceEvent(k, w, e, f); WithFenceKeepsLease(k, w, f, v.fences[f], v.requests[f]);
    case GiveUp(f) => FenceEvent(k, w, e, f); WithFenceKeepsLease(k, w, f, v.fences[f], v.requests[f]);
    case Restart(f) => FenceEvent(k, w, e, f); WithFenceKeepsLease(k, w, f, v.fences[f], v.requests[f]);
    case Local(f, _) => FenceEvent(k, w, e, f); WithFenceKeepsLease(k, w, f, v.fences[f], v.requests[f]);
  }

  lemma SendIsQuiet(k: Setup, w: World, f: Id)
    requires Shape(k, w) && NextSend(k, w, f).Some? && Shape(k, NextSend(k, w, f).value)
    requires forall a <- NextSend(k, w, f).value.attempts :: AttemptOk(k, NextSend(k, w, f).value, a)
    requires NextSend(k, w, f).value.attempts != w.attempts
    ensures SameLease(k, w, NextSend(k, w, f).value)
    ensures OneLanding(w) ==> OneLanding(NextSend(k, w, f).value)
  {
    var v := NextSend(k, w, f).value;
    var a := v.attempts[|w.attempts|];
    assert a in v.attempts && a.now == w.fences[f].clock && v.fences == w.fences;
  }

  lemma RefusalIsQuiet(k: Setup, w: World, i: nat, version: string)
    requires Inv(k, w) && NextLand(w, i, version).Some? && Inv(k, NextLand(w, i, version).value)
    requires ApplyPatch(w.doc, w.attempts[i].patch).None?
    ensures SameLease(k, w, NextLand(w, i, version).value)
    ensures OneLanding(w) ==> OneLanding(NextLand(w, i, version).value)
  {
    var v := NextLand(w, i, version).value;
    forall a | a in v.attempts && a !in w.attempts ensures AddedLate(w, a) {
      assert a == v.attempts[i];
      assert AttemptOk(k, w, w.attempts[i]);
    }
  }

  lemma NextKeepsChain(k: Setup, w: World, e: Event)
    requires ValidSetup(k) && ChainInv(k, w) && NextWorld(k, w, e).Some?
    ensures ChainInv(k, NextWorld(k, w, e).value)
  {
    NextKeepsInv(k, w, e);
    if e.Land? && ApplyPatch(w.doc, w.attempts[e.i].patch).Some? {
      LandedOnItsSnapshot(k, w, w.attempts[e.i]);
      assert NextWorld(k, w, e).value == AfterLanding(w, e.i, e.version);
      LandingKeepsChain(k, w, e.i, e.version);
    } else {
      QuietEvent(k, w, e);
      SameDocKeepsRenewInv(k, w, NextWorld(k, w, e).value);
    }
  }

  lemma {:induction false} RunKeepsChain(k: Setup, w: World, events: seq<Event>)
    requires ValidSetup(k) && Init(k, w) && Run(k, w, events).Some?
    ensures ChainInv(k, Run(k, w, events).value)
  {
    if events == [] {
      InitInv(k, w);
    } else {
      RunKeepsChain(k, w, events[..|events| - 1]);
      NextKeepsChain(k, Run(k, w, events[..|events| - 1]).value, events[|events| - 1]);
    }
  }

  lemma ReachableChain(k: Setup, w: World)
    requires ValidSetup(k) && Reachable(k, w)
    ensures ChainInv(k, w)
  {
    var start, events :| Init(k, start) && Run(k, start, events) == Some(w);
    RunKeepsChain(k, start, events);
  }

  /** The write of attempt i onto the current Lease. */
  lemma WhatLandingWrites(k: Setup, w: World, i: nat, version: string)
    requires CanLand(k, w, i, version) && RenewInv(k, w)
    ensures DecodeLease(w.doc) == Ok(w.attempts[i].basis)
    ensures NextLand(w, i, version) == Some(AfterLanding(w, i, version))
    ensures w.doc.holderIdentity != Some("") && w.doc.renewTime.At? ==>
              Truncate(w.attempts[i].now) >= w.doc.renewTime.instant
  {
    var a := w.attempts[i];
    assert a in w.attempts && AttemptOk(k, w, a);
    LandedOnItsSnapshot(k, w, a);
    PrepareExactly(k.configs[a.fence], a.basis, a.now);
    if w.doc.holderIdentity == Some(a.fence) && w.doc.renewTime.At? {
      assert HeldSince(w, a.fence, w.doc.renewTime.instant);
    }
  }

  lemma ChangesAreLandings(k: Setup, w: World, e: Event)
    requires ValidSetup(k) && ChainInv(k, w) && NextWorld(k, w, e).Some? && NextWorld(k, w, e).value.doc != w.doc
    ensures e.Land? && CanLand(k, w, e.i, e.version)
  {
    if !(e.Land? && ApplyPatch(w.doc, w.attempts[e.i].patch).Some?) {
      NextKeepsInv(k, w, e);
      QuietEvent(k, w, e);
    }
  }

  /** Writes form one chain, in every run and whatever the clocks do: the Lease only
      changes when a patch lands; that patch's snapshot is exactly the Lease it
      replaces; no other patch built on the same version has landed; and while someone
      held the Lease its renewal time does not go back. */
  lemma WritesFormOneChain(k: Setup, w: World, e: Event)
    requires ValidSetup(k) && Reachable(k, w) && NextWorld(k, w, e).Some?
    ensures OneLanding(NextWorld(k, w, e).value)
    ensures var v := NextWorld(k, w, e).value;
            v.doc != w.doc ==>
              && e.Land? && e.i < |w.attempts| && v.attempts[e.i].fate == Landed(v.doc)
              && DecodeLease(w.doc) == Ok(w.attempts[e.i].basis)
              && v.doc == Renewed(w.doc, w.attempts[e.i].fence, w.attempts[e.i].now).(resourceVersion := e.version)
              && e.version !in w.versions
              && (w.doc.holderIdentity != Some("") && w.doc.renewTime.At? ==>
                    v.doc.renewTime.instant >= w.doc.renewTime.instant)
  {
    assert ChainInv(k, w) by {
      ReachableChain(k, w);
    }
    NextWritesOneChain(k, w, e);
  }

  lemma NextWritesOneChain(k: Setup, w: World, e: Event)
    requires ValidSetup(k) && ChainInv(k, w) && NextWorld(k, w, e).Some?
    ensures OneLanding(NextWorld(k, w, e).value)
    ensures var v := NextWorld(k, w, e).value;
            v.doc != w.doc ==>
              && e.Land? && e.i < |w.attempts| && v.attempts[e.i].fate == Landed(v.doc)
              && DecodeLease(w.doc) == Ok(w.attempts[e.i].basis)
              && v.doc == Renewed(w.doc, w.attempts[e.i].fence, w.attempts[e.i].now).(resourceVersion := e.version)
              && e.version !in w.versions
              && (w.doc.holderIdentity != Some("") && w.doc.renewTime.At? ==>
                    v.doc.renewTime.instant >= w.doc.renewTime.instant)
  {
    NextKeepsChain(k, w, e);
    if NextWorld(k, w, e).value.doc != w.doc {
      ChangesAreLandings(k, w, e);
      WhatLandingWrites(k, w, e.i, e.version);
    }
  }
}
