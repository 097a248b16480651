/** A holder's own expiry: once the Lease has expired on its holder's clock with nothing
    of it in flight, no run revives the holder before another one had the Lease. */
module LeaseExpiry {
  import opened Outcomes
  import opened LeaseClient
  import opened FenceProcess
  import opened LeaseCluster
  import opened LeaseExclusion
  import opened LeaseSkew
  import opened LeaseChain

  /** The Lease names h, has expired on h's clock, and no patch of h would land. */
  ghost predicate Expired(k: Setup, w: World, h: Id) {
    && h in w.fences
    && w.doc.holderIdentity == Some(h) && w.doc.renewTime.At?
    && Truncate(w.fences[h].clock) >= w.doc.renewTime.instant + Duration(k)
    && (forall a <- w.attempts :: a.fence == h ==> !Current(w, a))
  }

  /** The margin covers what truncation loses, or the fence never gets authority. */
  predicate CoversTruncation(k: Setup, h: Id) {
    h in k.configs && (Accepts(k, h) ==> 999 <= k.configs[h].margin)
  }

  lemma ExpiredIsNotLive(k: Setup, w: World, h: Id)
    requires ValidSetup(k) && Inv(k, w) && Expired(k, w, h) && CoversTruncation(k, h)
    ensures !Live(w, h)
  {
    forall d | Holds(w.fences[h], d) ensures d <= w.fences[h].clock {
      assert Good(k, w, h, d);
    }
  }

  /** An expired holder cannot prepare a patch on the current Lease. */
  lemma ExpiredHolderSendsNothing(k: Setup, w: World, h: Id)
    requires ValidSetup(k) && Inv(k, w) && Expired(k, w, h) && NextSend(k, w, h).Some?
    ensures forall a <- NextSend(k, w, h).value.attempts :: a.fence == h ==> !Current(w, a)
  {
    assert RequestOk(k, w, h);
    var lease := w.requests[h].lease;
    if lease.resourceVersion == w.doc.resourceVersion {
      assert Prepare(k.configs[h], lease, w.fences[h].clock).Err?;
    }
  }

  lemma ExpiredStaysWhenQuiet(k: Setup, w: World, e: Event, h: Id)
    requires ValidSetup(k) && Inv(k, w) && Expired(k, w, h) && NextWorld(k, w, e).Some?
    requires SameLease(k, w, NextWorld(k, w, e).value)
    requires forall a <- NextWorld(k, w, e).value.attempts :: a in w.attempts || !a.fate.InFlight? || e == Send(a.fence)
    ensures Expired(k, NextWorld(k, w, e).value, h)
  {
    var v := NextWorld(k, w, e).value;
    TruncateMonotone(w.fences[h].clock, v.fences[h].clock);
    if e == Send(h) {
      ExpiredHolderSendsNothing(k, w, h);
    }
  }

  lemma OnlySendsAddPatches(k: Setup, w: World, e: Event)
    requires NextWorld(k, w, e).Some?
    ensures forall a <- NextWorld(k, w, e).value.attempts :: a in w.attempts || !a.fate.InFlight? || e == Send(a.fence)
  {
  }

  lemma ExpiredStays(k: Setup, w: World, e: Event, h: Id)
    requires ValidSetup(k) && Inv(k, w) && Expired(k, w, h) && NextWorld(k, w, e).Some?
    ensures var v := NextWorld(k, w, e).value;
            v.doc.holderIdentity != Some(h) || (v.doc == w.doc && Expired(k, v, h))
  {
    if e.Land? && ApplyPatch(w.doc, w.attempts[e.i].patch).Some? {
      assert AttemptOk(k, w, w.attempts[e.i]);
      LandedOnItsSnapshot(k, w, w.attempts[e.i]);
      assert w.attempts[e.i].fence != h;
    } else {
      NextKeepsInv(k, w, e);
      QuietEvent(k, w, e);
      OnlySendsAddPatches(k, w, e);
      ExpiredStaysWhenQuiet(k, w, e, h);
    }
  }

  /** Somewhere along the run another holder had the Lease. */
  ghost predicate TakenBy(k: Setup, w: World, events: seq<Event>, n: nat, h: Id) {
    && n <= |events|
    && Run(k, w, events[..n]).Some? && Run(k, w, events[..n]).value.doc.holderIdentity != Some(h)
  }

  ghost predicate TakenInRun(k: Setup, w: World, events: seq<Event>, h: Id) {
    exists n: nat :: TakenBy(k, w, events, n, h)
  }

  lemma TakenStaysTaken(k: Setup, w: World, events: seq<Event>, e: Event, h: Id)
    requires TakenInRun(k, w, events, h)
    ensures TakenInRun(k, w, events + [e], h)
  {
    var n: nat :| TakenBy(k, w, events, n, h);
    assert (events + [e])[..n] == events[..n];
    assert TakenBy(k, w, events + [e], n, h);
  }

  lemma TakenAtEnd(k: Setup, w: World, events: seq<Event>, h: Id)
    requires Run(k, w, events).Some? && Run(k, w, events).value.doc.holderIdentity != Some(h)
    ensures TakenInRun(k, w, events, h)
  {
    assert events[..|events|] == events;
    assert TakenBy(k, w, events, |events|, h);
  }

  /** Own expiry is not undone, whatever the margins and the skew: from a world in which the
      Lease names h, has expired on h's clock and no patch of h would land, no patch of h lands in
      any run before another holder (or nobody) had the Lease; until then the Lease stays. */
  lemma {:induction false} OwnExpiryIsNotUndone(k: Setup, w: World, h: Id, events: seq<Event>)
    requires ValidSetup(k) && Inv(k, w) && Expired(k, w, h) && Run(k, w, events).Some?
    ensures var v := Run(k, w, events).value;
            && Inv(k, v)
            && (TakenInRun(k, w, events, h) || (v.doc == w.doc && Expired(k, v, h)))
  {
    if events != [] {
      var before, last := events[..|events| - 1], events[|events| - 1];
      assert events == before + [last];
      OwnExpiryIsNotUndone(k, w, h, before);
      var u := Run(k, w, before).value;
      NextKeepsInv(k, u, last);
      if TakenInRun(k, w, before, h) {
        TakenStaysTaken(k, w, before, last, h);
      } else {
        ExpiredStays(k, u, last, h);
        if NextWorld(k, u, last).value.doc.holderIdentity != Some(h) {
          TakenAtEnd(k, w, events, h);
        }
      }
    }
  }

  /** So, with a margin that covers what truncation loses, no run gives h live authority
      again before another holder had the Lease: neither skew nor other fences' margins matter. */
  lemma OwnExpiryIsFinal(k: Setup, w: World, h: Id, events: seq<Event>)
    requires ValidSetup(k) && CoversTruncation(k, h) && Inv(k, w) && Expired(k, w, h) && Run(k, w, events).Some?
    ensures var v := Run(k, w, events).value;
            TakenInRun(k, w, events, h) || (v.doc == w.doc && Expired(k, v, h) && !Live(v, h))
  {
    OwnExpiryIsNotUndone(k, w, h, events);
    if !TakenInRun(k, w, events, h) {
      ExpiredIsNotLive(k, Run(k, w, events).value, h);
    }
  }

  lemma OwnExpiryIsFinalInEveryRun(k: Setup, w: World, h: Id, events: seq<Event>)
    requires ValidSetup(k) && CoversTruncation(k, h) && Reachable(k, w) && Expired(k, w, h) && Run(k, w, events).Some?
    ensures TakenInRun(k, w, events, h)
            || (Run(k, w, events).value.doc == w.doc && !Live(Run(k, w, events).value, h))
  {
    assert Inv(k, w) by {
      ReachableInv(k, w);
    }
    OwnExpiryIsFinal(k, w, h, events);
  }

  // ------------------------------------------------- exactly when expiry ends authority

  lemma SomeOther(f: Id) returns (g: Id)
    ensures g != f
  {
    g := f + "x";
    assert |g| != |f|;
  }

  lemma FirstHolderIsExpired(k: Setup, w: World, h: Id, g: Id)
    requires Overlapping(k, h, g, 0) && FirstHolds(k, w, h, g, 0) && !CoversTruncation(k, h)
    ensures Expired(k, w, h) && Live(w, h)
  {
    WholeSeconds(k.seconds);
    assert LiveDeadline(w.fences[h], MICROSECOND - 1 + Duration(k) - k.configs[h].margin);
  }

  lemma ExpiredButLive(k: Setup, h: Id) returns (w: World)
    requires ValidSetup(k) && h in k.configs && !CoversTruncation(k, h)
    ensures Reachable(k, w) && Expired(k, w, h) && Live(w, h)
  {
    var g := SomeOther(h);
    w := FirstHolder(k, h, g, 0);
    FirstHolderIsExpired(k, w, h, g);
  }

  /** A fence's own expiry with nothing in flight always means that its authority is over if and
      only if its margin covers the 999 ns that truncation may lose, or it does not accept the
      Lease's duration at all. */
  lemma ExpiryEndsAuthorityExactly(k: Setup, h: Id)
    requires ValidSetup(k) && h in k.configs
    ensures CoversTruncation(k, h) <==> forall w :: Reachable(k, w) && Expired(k, w, h) ==> !Live(w, h)
  {
    if CoversTruncation(k, h) {
      forall w | Reachable(k, w) && Expired(k, w, h) ensures !Live(w, h) {
        assert Inv(k, w) by {
          ReachableInv(k, w);
        }
        ExpiredIsNotLive(k, w, h);
      }
    } else {
      var w := ExpiredButLive(k, h);
    }
  }
}
