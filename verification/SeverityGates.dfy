/** The two gates over a scan: they look for named severities only, and what stops an odd
    severity from slipping past is that their own count must equal the summary's. */
module SeverityGates {
  import opened Outcomes
  import opened Order
  import opened ScanSummary

  /** A finding that was looked at and accepted, in the gates' own words. */
  datatype Observed = Observed(
    id: Option<string>, package: Option<string>, version: Option<string>, severity: string)

  function Observe(f: Finding, lower: Lower): Observed {
    Observed(f.id, f.package, f.version, Severity(f, lower))
  }

  const OPENPGP_ADVISORY := Observed(Some("GO-2026-5932"), Some("golang.org/x/crypto"), Some("v0.56.0"), "unknown")
  const ACR_ENV_ADVISORY := Observed(
    Some("GO-2026-6225"), Some("github.com/chrismellard/docker-credential-acr-env"),
    Some("v0.0.0-20230304212654-82a0ddb27589"), "unknown")

  // ---- Selecting findings

  function WithSeverity(findings: seq<Finding>, severities: set<string>, lower: Lower): seq<Finding> {
    if findings == [] then []
    else
      var n := |findings| - 1;
      WithSeverity(findings[..n], severities, lower)
      + (if Severity(findings[n], lower) in severities then [findings[n]] else [])
  }

  /** Everything that is not medium or low. */
  function Residual(findings: seq<Finding>, lower: Lower): seq<Finding> {
    if findings == [] then []
    else
      var n := |findings| - 1;
      Residual(findings[..n], lower) + (if Benign(findings[n], lower) then [] else [findings[n]])
  }

  function ObserveAll(findings: seq<Finding>, lower: Lower): (r: seq<Observed>)
    ensures |r| == |findings|
  {
    seq(|findings|, i requires 0 <= i < |findings| => Observe(findings[i], lower))
  }

  method Select(findings: seq<Finding>, severities: set<string>, lower: Lower) returns (r: seq<Finding>)
    ensures r == WithSeverity(findings, severities, lower)
  {
    r := [];
    for i := 0 to |findings|
      invariant r == WithSeverity(findings[..i], severities, lower)
    {
      assert findings[..i + 1][..i] == findings[..i];
      if Severity(findings[i], lower) in severities {
        r := r + [findings[i]];
      }
    }
    assert findings[..|findings|] == findings;
  }

  /** The classes that block add up to the residual findings. */
  lemma {:induction false} CountsAddUp(findings: seq<Finding>, lower: Lower)
    ensures Count(findings, "critical", lower) + Count(findings, "high", lower) + Count(findings, "unknown", lower)
      == |Residual(findings, lower)|
  {
    if findings != [] {
      var n := |findings| - 1;
      CountsAddUp(findings[..n], lower);
      NotBenignBlocks(findings[n], lower);
    }
  }

  const BLOCKING: set<string> := {"critical", "high", "unknown"}

  /** Selecting by name finds no more than the residual ones, and as many only if it
      finds the same: then no severity is outside the standard ones. */
  lemma {:induction false} NamedAmongResidual(findings: seq<Finding>, lower: Lower)
    ensures |WithSeverity(findings, BLOCKING, lower)| <= |Residual(findings, lower)|
    ensures |WithSeverity(findings, BLOCKING, lower)| == |Residual(findings, lower)| ==>
      WithSeverity(findings, BLOCKING, lower) == Residual(findings, lower)
  {
    if findings != [] {
      NamedAmongResidual(findings[..|findings| - 1], lower);
    }
  }

  lemma {:induction false} ResidualNamed(findings: seq<Finding>, lower: Lower)
    requires forall i :: 0 <= i < |Residual(findings, lower)| ==>
      Severity(Residual(findings, lower)[i], lower) in BLOCKING
    ensures WithSeverity(findings, BLOCKING, lower) == Residual(findings, lower)
  {
    if findings != [] {
      var n := |findings| - 1;
      var before, all := Residual(findings[..n], lower), Residual(findings, lower);
      forall i | 0 <= i < |before| ensures Severity(before[i], lower) in BLOCKING {
        assert all[i] == before[i];
      }
      ResidualNamed(findings[..n], lower);
      if !Benign(findings[n], lower) {
        assert all[|before|] == findings[n];
      }
    }
  }

  lemma {:induction false} ResidualHolds(findings: seq<Finding>, f: Finding, lower: Lower)
    ensures f in Residual(findings, lower) <==> f in findings && !Benign(f, lower)
  {
    if findings != [] {
      var n := |findings| - 1;
      ResidualHolds(findings[..n], f, lower);
      assert findings == findings[..n] + [findings[n]];
    }
  }

  /** What an observation states, of the finding itself. */
  ghost predicate IsObserved(f: Finding, id: string, package: string, version: string, severity: string, lower: Lower) {
    && f.id == Some(id) && f.package == Some(package) && f.version == Some(version)
    && f.severity.Some? && lower(f.severity.value) == severity
  }

  ghost predicate AllMediumOrLowBut(findings: seq<Finding>, others: set<int>, lower: Lower) {
    forall i :: 0 <= i < |findings| && i !in others ==> MediumOrLow(findings[i], lower)
  }

  // ---- The Kyverno gate

  const ACCEPTED: seq<Observed> := [ACR_ENV_ADVISORY, OPENPGP_ADVISORY]

  const ById: Observed -> string := (o: Observed) => if o.id.Some? then o.id.value else ""

  /** What is not medium or low is, as a multiset, exactly the two accepted findings. */
  ghost predicate OnlyAcceptedRisk(findings: seq<Finding>, lower: Lower) {
    HaveSeverities(findings) && multiset(ObserveAll(Residual(findings, lower), lower)) == multiset(ACCEPTED)
  }

  /** Named findings by class, then by identifier, as the gate compares them. */
  predicate Matches(findings: seq<Finding>, lower: Lower) {
    && Count(findings, "critical", lower) == 0
    && Count(findings, "high", lower) == 0
    && Count(findings, "unknown", lower) == 2
    && Sort(ObserveAll(WithSeverity(findings, BLOCKING, lower), lower), ById) == Sort(ACCEPTED, ById)
  }

  /** The two findings that were accepted, once each, and beside them only medium and low ones. */
  ghost predicate TwoAccepted(findings: seq<Finding>, a: int, b: int, lower: Lower) {
    && 0 <= a < |findings| && 0 <= b < |findings| && a != b
    && IsObserved(findings[a], "GO-2026-6225", "github.com/chrismellard/docker-credential-acr-env",
                  "v0.0.0-20230304212654-82a0ddb27589", "unknown", lower)
    && IsObserved(findings[b], "GO-2026-5932", "golang.org/x/crypto", "v0.56.0", "unknown", lower)
    && AllMediumOrLowBut(findings, {a, b}, lower)
  }

  ghost predicate BenignBut(findings: seq<Finding>, others: set<int>, lower: Lower) {
    forall i :: 0 <= i < |findings| && i !in others ==> Benign(findings[i], lower)
  }

  ghost predicate AllBenign(findings: seq<Finding>, lower: Lower) {
    forall i :: 0 <= i < |findings| ==> Benign(findings[i], lower)
  }

  lemma {:induction false} ResidualEmpty(findings: seq<Finding>, lower: Lower)
    ensures Residual(findings, lower) == [] <==> AllBenign(findings, lower)
  {
    if findings != [] {
      var n := |findings| - 1;
      ResidualEmpty(findings[..n], lower);
      assert findings == findings[..n] + [findings[n]];
    }
  }

  /** Where the one residual finding stands, and conversely. */
  lemma {:induction false} OneStands(findings: seq<Finding>, lower: Lower) returns (a: int)
    requires |Residual(findings, lower)| == 1
    ensures 0 <= a < |findings| && BenignBut(findings, {a}, lower) && Residual(findings, lower) == [findings[a]]
  {
    var n := |findings| - 1;
    var before := Residual(findings[..n], lower);
    assert findings == findings[..n] + [findings[n]];
    if Benign(findings[n], lower) {
      assert |before| == 1;
      a := OneStands(findings[..n], lower);
    } else {
      assert |before| == 0;
      a := n;
      ResidualEmpty(findings[..n], lower);
    }
  }

  lemma {:induction false} OneIsResidual(findings: seq<Finding>, a: int, lower: Lower)
    requires 0 <= a < |findings| && !Benign(findings[a], lower) && BenignBut(findings, {a}, lower)
    ensures Residual(findings, lower) == [findings[a]]
  {
    var n := |findings| - 1;
    assert findings == findings[..n] + [findings[n]];
    if a == n {
      ResidualEmpty(findings[..n], lower);
    } else {
      OneIsResidual(findings[..n], a, lower);
    }
  }

  lemma {:induction false} TwoStand(findings: seq<Finding>, lower: Lower) returns (a: int, b: int)
    requires |Residual(findings, lower)| == 2
    ensures 0 <= a < b < |findings| && BenignBut(findings, {a, b}, lower)
    ensures Residual(findings, lower) == [findings[a], findings[b]]
  {
    var n := |findings| - 1;
    assert findings == findings[..n] + [findings[n]];
    if Benign(findings[n], lower) {
      a, b := TwoStand(findings[..n], lower);
    } else {
      a := OneStands(findings[..n], lower);
      b := n;
    }
  }

  lemma {:induction false} TwoAreResidual(findings: seq<Finding>, a: int, b: int, lower: Lower)
    requires 0 <= a < b < |findings| && !Benign(findings[a], lower) && !Benign(findings[b], lower)
    requires BenignBut(findings, {a, b}, lower)
    ensures Residual(findings, lower) == [findings[a], findings[b]]
  {
    var n := |findings| - 1;
    assert findings == findings[..n] + [findings[n]];
    if b == n {
      OneIsResidual(findings[..n], a, lower);
    } else {
      TwoAreResidual(findings[..n], a, b, lower);
    }
  }

  /** An observation is one of the two accepted when the finding states it. */
  lemma ObservedIs(f: Finding, lower: Lower)
    requires f.severity.Some?
    ensures Observe(f, lower) == ACR_ENV_ADVISORY <==>
      IsObserved(f, "GO-2026-6225", "github.com/chrismellard/docker-credential-acr-env",
                 "v0.0.0-20230304212654-82a0ddb27589", "unknown", lower)
    ensures Observe(f, lower) == OPENPGP_ADVISORY <==>
      IsObserved(f, "GO-2026-5932", "golang.org/x/crypto", "v0.56.0", "unknown", lower)
  {
  }

  lemma TwoObserved(x: Observed, y: Observed)
    ensures multiset([x, y]) == multiset(ACCEPTED) <==>
      (x == ACR_ENV_ADVISORY && y == OPENPGP_ADVISORY) || (x == OPENPGP_ADVISORY && y == ACR_ENV_ADVISORY)
  {
    assert multiset([x, y]) == multiset{x, y} && multiset(ACCEPTED) == multiset{ACR_ENV_ADVISORY, OPENPGP_ADVISORY};
    assert ACR_ENV_ADVISORY != OPENPGP_ADVISORY by {
      assert ACR_ENV_ADVISORY.id.value[8] != OPENPGP_ADVISORY.id.value[8];
    }
    if multiset([x, y]) == multiset(ACCEPTED) {
      assert x in multiset(ACCEPTED) && y in multiset(ACCEPTED);
      assert multiset{x, y}[ACR_ENV_ADVISORY] == 1;
    }
  }

  lemma ObserveTwo(x: Finding, y: Finding, lower: Lower)
    ensures ObserveAll([x, y], lower) == [Observe(x, lower), Observe(y, lower)]
  {
  }

  lemma ResidualAccepted(findings: seq<Finding>, x: Finding, y: Finding, lower: Lower)
    requires Residual(findings, lower) == [x, y]
    ensures multiset(ObserveAll(Residual(findings, lower), lower))
      == multiset([Observe(x, lower), Observe(y, lower)])
  {
    ObserveTwo(x, y, lower);
  }

  lemma OnlyAcceptedStands(findings: seq<Finding>, lower: Lower)
    requires OnlyAcceptedRisk(findings, lower)
    ensures exists a, b :: TwoAccepted(findings, a, b, lower)
  {
    CountsExactly(map[], findings, lower);
    assert |multiset(ObserveAll(Residual(findings, lower), lower))| == |multiset(ACCEPTED)|;
    var a, b := TwoStand(findings, lower);
    ResidualAccepted(findings, findings[a], findings[b], lower);
    TwoObserved(Observe(findings[a], lower), Observe(findings[b], lower));
    ObservedIs(findings[a], lower);
    ObservedIs(findings[b], lower);
    assert TwoAccepted(findings, a, b, lower) || TwoAccepted(findings, b, a, lower);
  }

  lemma TwoAcceptedIsOnly(findings: seq<Finding>, a: int, b: int, lower: Lower)
    requires HaveSeverities(findings) && TwoAccepted(findings, a, b, lower)
    ensures OnlyAcceptedRisk(findings, lower)
  {
    CountsExactly(map[], findings, lower);
    ObservedIs(findings[a], lower);
    ObservedIs(findings[b], lower);
    var x, y := if a < b then a else b, if a < b then b else a;
    assert "unknown"[0] != "medium"[0] && "unknown"[0] != "low"[0];
    TwoAreResidual(findings, x, y, lower);
    ResidualAccepted(findings, findings[x], findings[y], lower);
    TwoObserved(Observe(findings[x], lower), Observe(findings[y], lower));
  }

  /** What is not medium or low is the accepted risk exactly when two findings are the two accepted
      ones and all others are medium or low. */
  lemma OnlyAcceptedExactly(findings: seq<Finding>, lower: Lower)
    requires HaveSeverities(findings)
    ensures OnlyAcceptedRisk(findings, lower) <==> exists a, b :: TwoAccepted(findings, a, b, lower)
  {
    if OnlyAcceptedRisk(findings, lower) {
      OnlyAcceptedStands(findings, lower);
    }
    if a, b :| TwoAccepted(findings, a, b, lower) {
      TwoAcceptedIsOnly(findings, a, b, lower);
    }
  }

  /** Counting and matching, then the comparison with the summary. */
  method AssessKyverno(findings: seq<Finding>, summary: Summary, lower: Lower) returns (accepted: bool)
    ensures accepted <==>
      OnlyAcceptedRisk(findings, lower) && summary.counts == Counts(findings, lower) && summary.blocked
    ensures accepted <==>
      && HaveSeverities(findings) && (exists a, b :: TwoAccepted(findings, a, b, lower))
      && CountsEach(summary.counts, findings, lower) && summary.blocked
  {
    var counted := CountSeverities(findings, lower);
    if counted.None? {
      return false;
    }
    var counts := counted.value;
    var named := Select(findings, BLOCKING, lower);
    var observed := ObserveAll(named, lower);
    MatchingIsExact(findings, lower);
    OnlyAcceptedExactly(findings, lower);
    CountsExactly(summary.counts, findings, lower);
    if counts["critical"] != 0 || counts["high"] != 0 || counts["unknown"] != 2
      || Sort(observed, ById) != Sort(ACCEPTED, ById) {
      return false;
    }
    return summary.blocked && summary.counts == counts;
  }

  lemma MatchIsExact(findings: seq<Finding>, lower: Lower)
    requires Matches(findings, lower)
    ensures multiset(ObserveAll(Residual(findings, lower), lower)) == multiset(ACCEPTED)
  {
    var named := WithSeverity(findings, BLOCKING, lower);
    SortPermutes(ObserveAll(named, lower), ById);
    SortPermutes(ACCEPTED, ById);
    assert |multiset(ObserveAll(named, lower))| == |multiset(ACCEPTED)|;
    CountsAddUp(findings, lower);
    NamedAmongResidual(findings, lower);
  }

  /** Accepted findings are of unknown severity, so every class but that one is empty. */
  lemma AcceptedAreUnknown(findings: seq<Finding>, lower: Lower)
    requires multiset(ObserveAll(Residual(findings, lower), lower)) == multiset(ACCEPTED)
    ensures forall i :: 0 <= i < |Residual(findings, lower)| ==>
      Severity(Residual(findings, lower)[i], lower) == "unknown"
    ensures |Residual(findings, lower)| == 2
  {
    var residual := Residual(findings, lower);
    var observed := ObserveAll(residual, lower);
    assert |multiset(observed)| == |multiset(ACCEPTED)|;
    forall i | 0 <= i < |residual| ensures Severity(residual[i], lower) == "unknown" {
      assert observed[i] in multiset(observed);
      assert observed[i] in ACCEPTED;
      assert observed[i] == Observe(residual[i], lower);
    }
  }

  lemma EmptyClass(findings: seq<Finding>, class_: string, lower: Lower)
    requires class_ == "critical" || class_ == "high"
    requires forall i :: 0 <= i < |Residual(findings, lower)| ==>
      Severity(Residual(findings, lower)[i], lower) == "unknown"
    ensures Count(findings, class_, lower) == 0
  {
    CountFinds(findings, class_, lower);
    if i :| 0 <= i < |findings| && ClassOf(findings[i], lower) == class_ {
      NotBenignBlocks(findings[i], lower);
      ResidualHolds(findings, findings[i], lower);
    }
  }

  lemma SortedByIdentifier(observed: seq<Observed>)
    requires multiset(observed) == multiset(ACCEPTED)
    ensures Sort(observed, ById) == Sort(ACCEPTED, ById)
  {
    assert |multiset(observed)| == |multiset(ACCEPTED)|;
    assert observed[0] in multiset(observed) && observed[1] in multiset(observed);
    assert observed == [observed[0], observed[1]];
    assert multiset(observed) == multiset{observed[0], observed[1]};
    SortSorts(observed, ById);
    SortSorts(ACCEPTED, ById);
    SortPermutes(observed, ById);
    SortPermutes(ACCEPTED, ById);
    forall x ensures x in Sort(observed, ById) <==> x in Sort(ACCEPTED, ById) {
      assert x in Sort(observed, ById) <==> x in multiset(Sort(observed, ById));
      assert x in Sort(ACCEPTED, ById) <==> x in multiset(Sort(ACCEPTED, ById));
    }
    SortedSameElements(Sort(observed, ById), Sort(ACCEPTED, ById), ById);
  }

  /** Counting by class and matching by name together decide the multiset of everything
      that is not medium or low, however it is spelled. */
  lemma MatchingIsExact(findings: seq<Finding>, lower: Lower)
    ensures Matches(findings, lower) <==>
      multiset(ObserveAll(Residual(findings, lower), lower)) == multiset(ACCEPTED)
  {
    if Matches(findings, lower) {
      MatchIsExact(findings, lower);
    }
    if multiset(ObserveAll(Residual(findings, lower), lower)) == multiset(ACCEPTED) {
      AcceptedAreUnknown(findings, lower);
      EmptyClass(findings, "critical", lower);
      EmptyClass(findings, "high", lower);
      CountsAddUp(findings, lower);
      ResidualNamed(findings, lower);
      SortedByIdentifier(ObserveAll(Residual(findings, lower), lower));
    }
  }

  /** A scan with only the accepted risk is one whose summary blocks, so the gate's demand
      for a blocked summary never refuses the summary of the same scan. */
  lemma AcceptedScanIsBlocked(findings: seq<Finding>, lower: Lower)
    requires OnlyAcceptedRisk(findings, lower)
    ensures exists i :: 0 <= i < |findings| && !MediumOrLow(findings[i], lower)
  {
    AcceptedAreUnknown(findings, lower);
    CountsExactly(map[], findings, lower);
    var f := Residual(findings, lower)[0];
    ResidualHolds(findings, f, lower);
    var i :| 0 <= i < |findings| && findings[i] == f;
  }

  // ---- The Vault gate

  /** An exact match of the one reviewed advisory. */
  predicate Approved(f: Finding, lower: Lower) {
    Observe(f, lower) == OPENPGP_ADVISORY
  }

  ghost predicate ReviewedAdvisory(f: Finding, lower: Lower) {
    IsObserved(f, "GO-2026-5932", "golang.org/x/crypto", "v0.56.0", "unknown", lower)
  }

  /** Every finding is medium or low, except at most one that is the reviewed advisory. */
  ghost predicate OnlyOneApproved(findings: seq<Finding>, lower: Lower) {
    HaveSeverities(findings) && AllReviewed(findings, lower) && AtMostOneApproved(findings, lower)
  }

  ghost predicate AllReviewed(findings: seq<Finding>, lower: Lower) {
    forall i :: 0 <= i < |findings| ==> Benign(findings[i], lower) || Approved(findings[i], lower)
  }

  ghost predicate AtMostOneApproved(findings: seq<Finding>, lower: Lower) {
    forall i, j :: 0 <= i < j < |findings| ==> !(Approved(findings[i], lower) && Approved(findings[j], lower))
  }

  /** Summarised first; then no blocking finding, no severity the summary counted as
      unknown without its being called so, and at most the one approved unknown. */
  method AssessVault(findings: seq<Finding>, lower: Lower) returns (passed: bool)
    ensures passed <==> OnlyOneApproved(findings, lower)
    ensures passed <==>
      && HaveSeverities(findings)
      && (forall i :: 0 <= i < |findings| ==>
            MediumOrLow(findings[i], lower) || ReviewedAdvisory(findings[i], lower))
      && (forall i, j :: 0 <= i < j < |findings| ==>
            !(ReviewedAdvisory(findings[i], lower) && ReviewedAdvisory(findings[j], lower)))
  {
    var counted := Summarize(findings, lower);
    if counted.None? {
      return false;
    }
    var unknown := Select(findings, {"unknown"}, lower);
    var blocking := Select(findings, {"critical", "high"}, lower);
    VaultGateIsExact(findings, lower);
    CountsExactly(map[], findings, lower);
    forall i | 0 <= i < |findings| ensures Approved(findings[i], lower) <==> ReviewedAdvisory(findings[i], lower) {
    }
    if blocking != [] {
      return false;
    }
    if counted.value.counts["unknown"] != |unknown| {
      return false;
    }
    return unknown == [] || (|unknown| == 1 && Approved(unknown[0], lower));
  }

  predicate GatePasses(findings: seq<Finding>, lower: Lower) {
    var unknown := WithSeverity(findings, {"unknown"}, lower);
    && WithSeverity(findings, {"critical", "high"}, lower) == []
    && Count(findings, "unknown", lower) == |unknown|
    && (unknown == [] || (|unknown| == 1 && Approved(unknown[0], lower)))
  }

  /** The gate in terms of the residual findings: none, or the approved one alone. */
  ghost predicate ResidualApproved(findings: seq<Finding>, lower: Lower) {
    var residual := Residual(findings, lower);
    residual == [] || (|residual| == 1 && Approved(residual[0], lower))
  }

  lemma {:induction false} UnknownAmongResidual(findings: seq<Finding>, lower: Lower)
    ensures var unknown := WithSeverity(findings, {"unknown"}, lower);
      && |unknown| + |WithSeverity(findings, {"critical", "high"}, lower)| <= |Residual(findings, lower)|
      && |unknown| <= Count(findings, "unknown", lower)
      && (|unknown| == |Residual(findings, lower)| ==> unknown == Residual(findings, lower))
  {
    if findings != [] {
      UnknownAmongResidual(findings[..|findings| - 1], lower);
    }
  }

  lemma {:induction false} BlockingIsCounted(findings: seq<Finding>, lower: Lower)
    ensures |WithSeverity(findings, {"critical", "high"}, lower)|
      == Count(findings, "critical", lower) + Count(findings, "high", lower)
  {
    if findings != [] {
      BlockingIsCounted(findings[..|findings| - 1], lower);
    }
  }

  lemma {:induction false} ResidualUnknown(findings: seq<Finding>, lower: Lower)
    requires forall i :: 0 <= i < |Residual(findings, lower)| ==>
      Severity(Residual(findings, lower)[i], lower) == "unknown"
    ensures WithSeverity(findings, {"unknown"}, lower) == Residual(findings, lower)
  {
    if findings != [] {
      var n := |findings| - 1;
      var before, all := Residual(findings[..n], lower), Residual(findings, lower);
      forall i | 0 <= i < |before| ensures Severity(before[i], lower) == "unknown" {
        assert all[i] == before[i];
      }
      ResidualUnknown(findings[..n], lower);
      if !Benign(findings[n], lower) {
        assert all[|before|] == findings[n];
      }
    }
  }

  lemma PassingIsApproved(findings: seq<Finding>, lower: Lower)
    requires GatePasses(findings, lower)
    ensures ResidualApproved(findings, lower)
  {
    UnknownAmongResidual(findings, lower);
    BlockingIsCounted(findings, lower);
    CountsAddUp(findings, lower);
  }

  lemma ApprovedPasses(findings: seq<Finding>, lower: Lower)
    requires ResidualApproved(findings, lower)
    ensures GatePasses(findings, lower)
  {
    ResidualUnknown(findings, lower);
    UnknownAmongResidual(findings, lower);
    BlockingIsCounted(findings, lower);
    CountsAddUp(findings, lower);
  }

  lemma GateDecidesResidual(findings: seq<Finding>, lower: Lower)
    ensures GatePasses(findings, lower) <==> ResidualApproved(findings, lower)
  {
    if GatePasses(findings, lower) {
      PassingIsApproved(findings, lower);
    }
    if ResidualApproved(findings, lower) {
      ApprovedPasses(findings, lower);
    }
  }

  lemma ReviewedStep(findings: seq<Finding>, lower: Lower)
    requires findings != []
    ensures var n := |findings| - 1;
      var last := findings[n];
      AllReviewed(findings, lower) && AtMostOneApproved(findings, lower) <==>
        if Benign(last, lower) then AllReviewed(findings[..n], lower) && AtMostOneApproved(findings[..n], lower)
        else Approved(last, lower) && AllBenign(findings[..n], lower)
  {
    var n := |findings| - 1;
    assert findings == findings[..n] + [findings[n]];
    assert forall i :: 0 <= i < n ==> findings[..n][i] == findings[i];
    assert forall i :: 0 <= i < |findings| && Approved(findings[i], lower) ==> !Benign(findings[i], lower);
  }

  lemma {:induction false} ResidualMeans(findings: seq<Finding>, lower: Lower)
    ensures ResidualApproved(findings, lower) <==>
      AllReviewed(findings, lower) && AtMostOneApproved(findings, lower)
  {
    if findings != [] {
      var n := |findings| - 1;
      ResidualMeans(findings[..n], lower);
      ResidualEmpty(findings[..n], lower);
      ReviewedStep(findings, lower);
      ResidualStep(findings, lower);
    }
  }

  lemma ResidualStep(findings: seq<Finding>, lower: Lower)
    requires findings != []
    ensures var n := |findings| - 1;
      ResidualApproved(findings, lower) <==>
        if Benign(findings[n], lower) then ResidualApproved(findings[..n], lower)
        else Residual(findings[..n], lower) == [] && Approved(findings[n], lower)
  {
  }

  /** Comparing two different counts of one list is what makes the gate exact. */
  lemma VaultGateIsExact(findings: seq<Finding>, lower: Lower)
    requires HaveSeverities(findings)
    ensures GatePasses(findings, lower) <==> OnlyOneApproved(findings, lower)
  {
    GateDecidesResidual(findings, lower);
    ResidualMeans(findings, lower);
  }
}
