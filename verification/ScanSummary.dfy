/** The summary of a vulnerability scan: findings counted into five classes, everything
    with another severity among the unknown ones. How a severity is put into lower case
    is a parameter. */
module ScanSummary {
  import opened Outcomes

  /** A match of the scanner; `None` where the text is missing or not a text. */
  datatype Finding = Finding(
    id: Option<string>, severity: Option<string>, package: Option<string>, version: Option<string>)

  type Lower = string -> string

  datatype Summary = Summary(counts: map<string, nat>, blocked: bool)

  const CLASSES: set<string> := {"critical", "high", "medium", "low", "unknown"}

  function Severity(f: Finding, lower: Lower): string {
    if f.severity.Some? then lower(f.severity.value) else ""
  }

  function ClassOf(f: Finding, lower: Lower): string {
    if Severity(f, lower) in CLASSES then Severity(f, lower) else "unknown"
  }

  /** Medium or low: what no gate has to look at. */
  predicate Benign(f: Finding, lower: Lower) {
    Severity(f, lower) == "medium" || Severity(f, lower) == "low"
  }

  function Count(findings: seq<Finding>, class_: string, lower: Lower): nat {
    if findings == [] then 0
    else
      var n := |findings| - 1;
      Count(findings[..n], class_, lower) + (if ClassOf(findings[n], lower) == class_ then 1 else 0)
  }

  function Counts(findings: seq<Finding>, lower: Lower): map<string, nat> {
    map class_ | class_ in CLASSES :: Count(findings, class_, lower)
  }

  lemma {:induction false} CountFinds(findings: seq<Finding>, class_: string, lower: Lower)
    ensures Count(findings, class_, lower) > 0 <==>
      exists i :: 0 <= i < |findings| && ClassOf(findings[i], lower) == class_
  {
    if findings != [] {
      var n := |findings| - 1;
      CountFinds(findings[..n], class_, lower);
      if i :| 0 <= i < |findings| && ClassOf(findings[i], lower) == class_ {
        assert i < n ==> findings[..n][i] == findings[i];
      }
    }
  }

  // ---- The same by the severities themselves

  /** Every finding has a severity that is a text and not empty. */
  ghost predicate HaveSeverities(findings: seq<Finding>) {
    forall i :: 0 <= i < |findings| ==> findings[i].severity.Some? && findings[i].severity.value != ""
  }

  /** The severity is, in lower case, the class; of unknown class it is if it is none of the four others. */
  ghost predicate InClass(f: Finding, class_: string, lower: Lower) {
    && f.severity.Some?
    && if class_ == "unknown" then lower(f.severity.value) !in {"critical", "high", "medium", "low"}
       else lower(f.severity.value) == class_
  }

  ghost function Those(findings: seq<Finding>, class_: string, lower: Lower): set<int> {
    set i | 0 <= i < |findings| && InClass(findings[i], class_, lower)
  }

  /** Five classes, each with the number of its findings. */
  ghost predicate CountsEach(counts: map<string, nat>, findings: seq<Finding>, lower: Lower) {
    && counts.Keys == {"critical", "high", "medium", "low", "unknown"}
    && forall class_ :: class_ in counts ==> counts[class_] == |Those(findings, class_, lower)|
  }

  ghost predicate MediumOrLow(f: Finding, lower: Lower) {
    f.severity.Some? && lower(f.severity.value) in {"medium", "low"}
  }

  lemma ClassIs(f: Finding, class_: string, lower: Lower)
    requires f.severity.Some? && class_ in {"critical", "high", "medium", "low", "unknown"}
    ensures ClassOf(f, lower) == class_ <==> InClass(f, class_, lower)
  {
  }

  lemma ThoseGrow(findings: seq<Finding>, class_: string, lower: Lower)
    requires findings != []
    ensures var n := |findings| - 1;
      && n !in Those(findings[..n], class_, lower)
      && Those(findings, class_, lower)
         == Those(findings[..n], class_, lower) + if InClass(findings[n], class_, lower) then {n} else {}
  {
  }

  lemma {:induction false} CountIsOfThose(findings: seq<Finding>, class_: string, lower: Lower)
    requires HaveSeverities(findings) && class_ in {"critical", "high", "medium", "low", "unknown"}
    ensures Count(findings, class_, lower) == |Those(findings, class_, lower)|
  {
    if findings != [] {
      var n := |findings| - 1;
      CountIsOfThose(findings[..n], class_, lower);
      ThoseGrow(findings, class_, lower);
      ClassIs(findings[n], class_, lower);
    }
  }

  /** The counts are of the severities themselves, and what is benign is what is called medium or low. */
  lemma CountsExactly(counts: map<string, nat>, findings: seq<Finding>, lower: Lower)
    requires HaveSeverities(findings)
    ensures counts == Counts(findings, lower) <==> CountsEach(counts, findings, lower)
    ensures forall i :: 0 <= i < |findings| ==> (Benign(findings[i], lower) <==> MediumOrLow(findings[i], lower))
  {
    forall class_ | class_ in CLASSES ensures Count(findings, class_, lower) == |Those(findings, class_, lower)| {
      CountIsOfThose(findings, class_, lower);
    }
  }

  /** A finding is benign or falls into a class that blocks, never both. */
  lemma NotBenignBlocks(f: Finding, lower: Lower)
    ensures !Benign(f, lower) <==>
      ClassOf(f, lower) == "critical" || ClassOf(f, lower) == "high" || ClassOf(f, lower) == "unknown"
  {
  }

  /** The counting loop; the scan is refused for a finding without a severity. The summary
      blocks exactly when some finding is not medium or low. */
  method Summarize(findings: seq<Finding>, lower: Lower) returns (r: Option<Summary>)
    ensures r.Some? <==> HaveSeverities(findings)
    ensures r.Some? ==> r.value.counts == Counts(findings, lower) && CountsEach(r.value.counts, findings, lower)
    ensures r.Some? ==>
      (r.value.blocked <==> exists i :: 0 <= i < |findings| && !MediumOrLow(findings[i], lower))
  {
    var counted := CountSeverities(findings, lower);
    if counted.None? {
      return None;
    }
    var counts := counted.value;
    CountFinds(findings, "critical", lower);
    CountFinds(findings, "high", lower);
    CountFinds(findings, "unknown", lower);
    BlockedMeans(findings, lower);
    CountsExactly(counts, findings, lower);
    return Some(Summary(counts, counts["critical"] > 0 || counts["high"] > 0 || counts["unknown"] > 0));
  }

  lemma BlockedMeans(findings: seq<Finding>, lower: Lower)
    ensures (exists i :: 0 <= i < |findings| && !Benign(findings[i], lower)) <==>
      || (exists i :: 0 <= i < |findings| && ClassOf(findings[i], lower) == "critical")
      || (exists i :: 0 <= i < |findings| && ClassOf(findings[i], lower) == "high")
      || (exists i :: 0 <= i < |findings| && ClassOf(findings[i], lower) == "unknown")
  {
    forall i | 0 <= i < |findings| ensures !Benign(findings[i], lower) <==>
      ClassOf(findings[i], lower) == "critical" || ClassOf(findings[i], lower) == "high"
      || ClassOf(findings[i], lower) == "unknown"
    {
      NotBenignBlocks(findings[i], lower);
    }
  }

  function NoCounts(): map<string, nat> {
    map class_ | class_ in CLASSES :: 0
  }

  function Increment(counts: map<string, nat>, severity: string): map<string, nat>
    requires "unknown" in counts
  {
    var class_ := if severity in counts then severity else "unknown";
    counts[class_ := counts[class_] + 1]
  }

  function Tally(findings: seq<Finding>, lower: Lower): (counts: map<string, nat>)
    ensures "unknown" in counts
  {
    if findings == [] then NoCounts()
    else Increment(Tally(findings[..|findings| - 1], lower), Severity(findings[|findings| - 1], lower))
  }

  lemma {:induction false} TallyKeys(findings: seq<Finding>, lower: Lower)
    ensures Tally(findings, lower).Keys == CLASSES
  {
    if findings != [] {
      TallyKeys(findings[..|findings| - 1], lower);
    }
  }

  lemma {:induction false} TallyAt(findings: seq<Finding>, class_: string, lower: Lower)
    requires class_ in CLASSES
    ensures class_ in Tally(findings, lower) && Tally(findings, lower)[class_] == Count(findings, class_, lower)
  {
    TallyKeys(findings, lower);
    if findings != [] {
      var n := |findings| - 1;
      TallyKeys(findings[..n], lower);
      TallyAt(findings[..n], class_, lower);
    }
  }

  /** Counting up gives every class the number of its findings. */
  lemma TallyCounts(findings: seq<Finding>, lower: Lower)
    ensures Tally(findings, lower) == Counts(findings, lower)
  {
    TallyKeys(findings, lower);
    forall class_ | class_ in CLASSES ensures Tally(findings, lower)[class_] == Count(findings, class_, lower) {
      TallyAt(findings, class_, lower);
    }
  }

  /** Counts every finding once, whether or not its severity is a standard one. */
  method CountSeverities(findings: seq<Finding>, lower: Lower) returns (r: Option<map<string, nat>>)
    ensures r.Some? <==> HaveSeverities(findings)
    ensures r.Some? ==> r.value == Counts(findings, lower) && CountsEach(r.value, findings, lower)
  {
    var counts := NoCounts();
    for i := 0 to |findings|
      invariant forall j :: 0 <= j < i ==> findings[j].severity.Some? && findings[j].severity.value != ""
      invariant counts == Tally(findings[..i], lower)
    {
      if findings[i].severity.None? || findings[i].severity.value == "" {
        return None;
      }
      assert findings[..i + 1][..i] == findings[..i];
      var severity := lower(findings[i].severity.value);
      counts := Increment(counts, severity);
    }
    assert findings[..|findings|] == findings;
    TallyCounts(findings, lower);
    CountsExactly(counts, findings, lower);
    r := Some(counts);
  }
}
