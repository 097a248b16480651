/** When a Lease can be acquired: it needs the member that names its holder, if only with an empty
    name, and each part of an acquisition goes on under exact conditions. */
module LeaseBootstrap {
  import opened Outcomes
  import opened LeaseClient
  import opened FenceProcess
  import opened LeaseCluster
  import opened LeaseExclusion
  import opened LeaseSkew
  import opened LeaseChain

  ghost predicate NoneHolds(k: Setup, w: World) {
    forall f, d :: f in k.configs && f in w.fences ==> !Holds(w.fences[f], d)
  }

  /** The Lease without a holder member stands as it was, and nobody has authority. */
  ghost predicate Unheld(k: Setup, w: World, doc: LeaseDoc) {
    && Inv(k, w) && w.doc == doc && doc.holderIdentity.None?
    && (forall a <- w.attempts :: !a.fate.Landed?)
    && NoneHolds(k, w)
  }

  lemma AnswerGrantsNothing(k: Setup, w: World, f: Id, d: int)
    requires NextAnswer(k, w, f).Some? && forall a <- w.attempts :: !a.fate.Landed?
    requires f in NextAnswer(k, w, f).value.fences && Holds(NextAnswer(k, w, f).value.fences[f], d)
    ensures f in w.fences && Holds(w.fences[f], d)
  {
    assert w.attempts[w.requests[f].attempt] in w.attempts;
  }

  /** Without a landed patch no event gives anybody a deadline. */
  lemma EventHoldsNoMore(k: Setup, w: World, e: Event, f: Id, d: int)
    requires Shape(k, w) && f in k.configs && NextWorld(k, w, e).Some? && forall a <- w.attempts :: !a.fate.Landed?
    requires f in NextWorld(k, w, e).value.fences && Holds(NextWorld(k, w, e).value.fences[f], d)
    ensures Holds(w.fences[f], d)
  {
    match e
    case Answer(g) => if g == f { AnswerGrantsNothing(k, w, f, d); }
    case Local(g, s) => if g == f { OnlyGrantsAreHeld(w.fences[f], s, d); }
    case _ =>
  }

  lemma PatchNeedsMember(k: Setup, w: World, a: Attempt)
    requires ValidSetup(k) && Inv(k, w) && a in w.attempts && w.doc.holderIdentity.None?
    ensures ApplyPatch(w.doc, a.patch).None?
  {
    assert AttemptOk(k, w, a);
    LandedOnItsSnapshot(k, w, a);
  }

  lemma NothingLands(k: Setup, w: World, e: Event)
    requires ValidSetup(k) && Inv(k, w) && w.doc.holderIdentity.None? && NextWorld(k, w, e).Some?
    requires forall a <- w.attempts :: !a.fate.Landed?
    ensures var v := NextWorld(k, w, e).value;
      Inv(k, v) && v.doc == w.doc && forall a <- v.attempts :: !a.fate.Landed?
  {
    NextKeepsInv(k, w, e);
    if e.Land? {
      PatchNeedsMember(k, w, w.attempts[e.i]);
    }
    QuietEvent(k, w, e);
  }

  lemma NextKeepsUnheld(k: Setup, w: World, e: Event, doc: LeaseDoc)
    requires ValidSetup(k) && Unheld(k, w, doc) && NextWorld(k, w, e).Some?
    ensures Unheld(k, NextWorld(k, w, e).value, doc)
  {
    var v := NextWorld(k, w, e).value;
    NothingLands(k, w, e);
    forall f, d | f in k.configs && f in v.fences && Holds(v.fences[f], d) ensures false {
      EventHoldsNoMore(k, w, e, f, d);
    }
  }

  /** In every run from a Lease without a holder member the Lease never changes and no fence
      ever has authority. */
  lemma {:induction false} MissingMemberIsNeverAcquired(k: Setup, w: World, events: seq<Event>)
    requires ValidSetup(k) && Init(k, w) && w.doc.holderIdentity.None? && Run(k, w, events).Some?
    ensures Unheld(k, Run(k, w, events).value, w.doc)
  {
    if events == [] {
      InitInv(k, w);
    } else {
      var n := |events| - 1;
      MissingMemberIsNeverAcquired(k, w, events[..n]);
      NextKeepsUnheld(k, Run(k, w, events[..n]).value, events[n], w.doc);
    }
  }

  lemma {:induction false} LongerThanAll(versions: set<string>) returns (v: string)
    ensures v != "" && forall x <- versions :: |x| < |v|
  {
    if versions == {} {
      v := "0";
    } else {
      var x :| x in versions;
      var longer := LongerThanAll(versions - {x});
      v := if |x| < |longer| then longer else x + "0";
    }
  }

  lemma RunGoesOn(k: Setup, w: World, events: seq<Event>, v: World, e: Event, u: World)
    requires Run(k, w, events) == Some(v) && NextWorld(k, v, e) == Some(u)
    ensures Run(k, w, events + [e]) == Some(u)
  {
    assert (events + [e])[..|events|] == events;
  }

  lemma EmptyMemberIsAcquired(k: Setup, w: World, f: Id) returns (events: seq<Event>)
    requires ValidSetup(k) && Init(k, w) && Accepts(k, f)
    requires w.doc.holderIdentity == Some("") && DecodeLease(w.doc).Ok?
    ensures Run(k, w, events).Some? && Run(k, w, events).value.doc.holderIdentity == Some(f)
  {
    var version := LongerThanAll(w.versions);
    var v1, v2, v3, v4 := LandingPath(k, w, f, version);
    var observe, land := Local(f, Renewing(Observe("u", "1"))), Land(|w.attempts|, version);
    RunGoesOn(k, w, [], w, observe, v1);
    RunGoesOn(k, w, [] + [observe], v1, Fetch(f), v2);
    RunGoesOn(k, w, [] + [observe] + [Fetch(f)], v2, Send(f), v3);
    RunGoesOn(k, w, [] + [observe] + [Fetch(f)] + [Send(f)], v3, land, v4);
    events := [] + [observe] + [Fetch(f)] + [Send(f)] + [land];
  }

  /** Exactly when a Lease that nobody holds can be acquired by a fence that accepts its duration:
      if and only if it has the holder member. */
  lemma AcquirableExactly(k: Setup, w: World, f: Id)
    requires ValidSetup(k) && Init(k, w) && Accepts(k, f)
    requires DecodeLease(w.doc).Ok? && DecodeLease(w.doc).value.holder == ""
    ensures (exists events :: Run(k, w, events).Some? && Run(k, w, events).value.doc.holderIdentity == Some(f))
      <==> w.doc.holderIdentity.Some?
  {
    if w.doc.holderIdentity.Some? {
      var events := EmptyMemberIsAcquired(k, w, f);
    } else {
      forall events | Run(k, w, events).Some? ensures Run(k, w, events).value.doc == w.doc {
        MissingMemberIsNeverAcquired(k, w, events);
      }
    }
  }

  // ---- When an acquisition goes on

  /** The fence's acquisition has failed, and nothing was sent. */
  ghost predicate GivenUp(w: World, v: World, f: Id) {
    && f in w.fences && f in w.requests
    && v == w.(requests := w.requests[f := Idle], fences := w.fences[f := w.fences[f].(renewer := Failed)])
  }

  /** Reading the Lease goes on exactly with a Lease that can be read. */
  lemma FetchGoesOnExactly(w: World, f: Id)
    requires NextFetch(w, f).Some?
    ensures var v := NextFetch(w, f).value;
      if w.doc.resourceVersion != "" && w.doc.durationSeconds.Some? && w.doc.durationSeconds.value > 0
         && !w.doc.renewTime.Malformed?
      then v == w.(requests := w.requests[f := Fetched(Lease(
             w.doc.resourceVersion, if w.doc.holderIdentity.None? then "" else w.doc.holderIdentity.value,
             w.doc.durationSeconds.value * 1_000_000_000,
             if w.doc.renewTime.At? then Some(w.doc.renewTime.instant) else None))])
      else GivenUp(w, v, f)
  {
  }

  /** A patch is sent exactly if the Lease read may be written over at that moment; otherwise the
      acquisition fails. */
  lemma SendGoesOnExactly(k: Setup, w: World, f: Id, doc: LeaseDoc)
    requires ValidSetup(k) && NextSend(k, w, f).Some? && DecodeLease(doc) == Ok(w.requests[f].lease)
    ensures f in k.configs && f in w.fences && f in w.requests
    ensures var v := NextSend(k, w, f).value;
      if MayWrite(k.configs[f], doc, w.fences[f].clock)
      then v == w.(attempts := v.attempts, requests := w.requests[f := Awaiting(|w.attempts|)])
           && |v.attempts| == |w.attempts| + 1 && v.attempts[..|w.attempts|] == w.attempts
           && v.attempts[|w.attempts|].fate.InFlight? && v.attempts[|w.attempts|].now == w.fences[f].clock
      else GivenUp(w, v, f)
  {
    PrepareExactly(k.configs[f], w.requests[f].lease, w.fences[f].clock);
  }

  /** The reply gives a deadline exactly if it shows this fence as the holder since the reading it sent,
      for long enough; a refused patch, or any other reply, ends the acquisition. */
  lemma AnswerGoesOnExactly(k: Setup, w: World, f: Id)
    requires ValidSetup(k) && NextAnswer(k, w, f).Some?
    ensures f in k.configs && f in w.fences && f in w.requests && w.requests[f].attempt < |w.attempts|
    ensures var v, c, a := NextAnswer(k, w, f).value, k.configs[f], w.attempts[w.requests[f].attempt];
      if a.fate.Landed? && a.fate.doc.resourceVersion != "" && a.fate.doc.holderIdentity == Some(f)
         && a.fate.doc.renewTime == At(a.now - a.now % 1_000) && a.fate.doc.durationSeconds.Some?
         && a.fate.doc.durationSeconds.value * 1_000_000_000 > c.poll + 3 * c.timeout + c.margin
      then v == w.(requests := w.requests[f := Idle], fences := w.fences[f := w.fences[f].(renewer :=
             Granted(a.now + a.fate.doc.durationSeconds.value * 1_000_000_000 - c.margin))])
      else GivenUp(w, v, f)
  {
    var a := w.attempts[w.requests[f].attempt];
    if a.fate.Landed? {
      ConcludeExactly(k.configs[f], a.fate.doc, a.now);
    }
  }

  /** A sender may stop waiting, and a fence start anew, at any time, whatever becomes of the patch. */
  lemma WaitingMayEnd(k: Setup, w: World, f: Id)
    requires f in w.fences && f in w.requests && f in k.maxAge
    ensures w.fences[f].renewer.Leasing? ==>
      NextWorld(k, w, GiveUp(f)).Some? && GivenUp(w, NextWorld(k, w, GiveUp(f)).value, f)
    ensures NextWorld(k, w, Restart(f)) == Some(w.(requests := w.requests[f := Idle],
      fences := w.fences[f := Boot(w.fences[f].clock, k.maxAge[f])]))
  {
  }
}
