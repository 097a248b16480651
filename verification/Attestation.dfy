/** Matching verified in-toto envelopes against the local evidence. Base64 and JSON
    decoding of a payload are a parameter: a document, or nothing if they fail. */
module Attestation {
  import opened Outcomes
  import opened CanonicalJson

  const PAYLOAD_TYPE: string := "application/vnd.in-toto+json"
  const STATEMENT_TYPE: string := "https://in-toto.io/Statement/v0.1"
  const DIGEST_PREFIX: string := "sha256:"

  /** The local side: what the envelope must say. */
  datatype Wanted = Wanted(image: string, digest: string, predicate_: Json, predicateType: string)

  datatype Verdict = Skipped | Invalid | Unmatched | Matched

  function WithoutPrefix(s: string, prefix: string): string {
    if prefix <= s then s[|prefix|..] else s
  }

  function WantedEntry(image: string, value: string): seq<Member> {
    [Member("name", Str(image)), Member("digest", Obj([Member("sha256", Str(value))]))]
  }

  function SubjectFor(image: string, digest: string): Json {
    Arr([Obj(WantedEntry(image, WithoutPrefix(digest, DIGEST_PREFIX)))])
  }

  predicate IsEnvelope(record: Json) {
    record.Obj? && Get(record.members, "payloadType") == Str(PAYLOAD_TYPE) && Get(record.members, "payload").Str?
  }

  predicate NamesSubject(statement: Json, want: Wanted) {
    && statement.Obj?
    && Same(Get(statement.members, "subject"), SubjectFor(want.image, want.digest))
    && Get(statement.members, "_type") == Str(STATEMENT_TYPE)
    && Get(statement.members, "predicateType") == Str(want.predicateType)
  }

  /** What one record means: other records are skipped, an envelope that does not
      decode to an object is fatal, and so is a predicate that cannot be compared. */
  function Judge(record: Json, want: Wanted, decode: string -> Option<Json>, ft: FloatText): Verdict {
    if !IsEnvelope(record) then Skipped
    else
      match decode(Get(record.members, "payload").s)
      case None => Invalid
      case Some(statement) =>
        if !statement.Obj? then Invalid
        else if !NamesSubject(statement, want) then Unmatched
        else
          var theirs := CanonicalText(Get(statement.members, "predicate"), ft);
          var ours := CanonicalText(want.predicate_, ft);
          if theirs.None? || ours.None? then Invalid
          else if theirs == ours then Matched
          else Unmatched
  }

  ghost function Verdicts(records: seq<Json>, want: Wanted, decode: string -> Option<Json>,
                          ft: FloatText): seq<Verdict>
  {
    seq(|records|, i requires 0 <= i < |records| => Judge(records[i], want, decode, ft))
  }

  /** No record is fatal and at least one matches. */
  ghost predicate Accepts(records: seq<Json>, want: Wanted, decode: string -> Option<Json>, ft: FloatText) {
    Invalid !in Verdicts(records, want, decode, ft) && Matched in Verdicts(records, want, decode, ft)
  }

  method JudgeRecord(record: Json, want: Wanted, decode: string -> Option<Json>, ft: FloatText) returns (v: Verdict)
    ensures v == Judge(record, want, decode, ft)
  {
    if !IsEnvelope(record) {
      return Skipped;
    }
    var payload := decode(Get(record.members, "payload").s);
    if payload.None? {
      return Invalid;
    }
    var statement := payload.value;
    if !statement.Obj? {
      return Invalid;
    }
    v := Unmatched;
    if NamesSubject(statement, want) {
      var theirs := CanonicalText(Get(statement.members, "predicate"), ft);
      if theirs.None? {
        return Invalid;
      }
      var ours := CanonicalText(want.predicate_, ft);
      if ours.None? {
        return Invalid;
      }
      if theirs == ours {
        v := Matched;
      }
    }
  }

  /** The loop over the records: it stops at the first fatal one, and otherwise
      remembers whether any matched. */
  method Verify(records: seq<Json>, want: Wanted, decode: string -> Option<Json>, ft: FloatText) returns (ok: bool)
    ensures ok <==> Accepts(records, want, decode, ft)
  {
    ghost var verdicts := Verdicts(records, want, decode, ft);
    var matched := false;
    for i := 0 to |records|
      invariant Invalid !in verdicts[..i]
      invariant matched <==> Matched in verdicts[..i]
    {
      var verdict := JudgeRecord(records[i], want, decode, ft);
      assert verdict == verdicts[i] && verdicts[..i + 1] == verdicts[..i] + [verdict];
      if verdict.Invalid? {
        return false;
      }
      if verdict.Matched? {
        matched := true;
      }
    }
    assert verdicts[..|records|] == verdicts;
    ok := matched;
  }

  /** One object with exactly a name and a digest, and that with exactly a SHA-256 value. */
  ghost predicate NamesImage(subject: Json, image: string, hex: string) {
    && subject.Arr? && |subject.items| == 1 && subject.items[0].Obj?
    && var entry := subject.items[0].members;
       && KeySet(entry) == {"name", "digest"}
       && Get(entry, "name") == Str(image)
       && Get(entry, "digest").Obj?
       && KeySet(Get(entry, "digest").members) == {"sha256"}
       && Get(Get(entry, "digest").members, "sha256") == Str(hex)
  }

  /** The subject asked for is one image with one SHA-256 digest, and nothing beside; the digest is
      written with `sha256:` before it or without. */
  ghost predicate OneImage(subject: Json, image: string, digest: string) {
    NamesImage(subject, image, if "sha256:" <= digest then digest[7..] else digest)
  }

  lemma DigestIsNamed(v: Json, value: string)
    requires UniqueKeys(v)
    ensures Same(v, Obj([Member("sha256", Str(value))])) <==>
      v.Obj? && KeySet(v.members) == {"sha256"} && Get(v.members, "sha256") == Str(value)
  {
    var want := [Member("sha256", Str(value))];
    assert want[0].key == "sha256" && KeySet(want) == {"sha256"};
    if v.Obj? {
      SameByKey(v.members, want);
    }
  }

  lemma WantedEntryHolds(image: string, value: string)
    ensures var want := WantedEntry(image, value);
      && UniqueKeys(Obj(want)) && KeySet(want) == {"name", "digest"}
      && Get(want, "name") == Str(image) && Get(want, "digest") == Obj([Member("sha256", Str(value))])
  {
    var want := WantedEntry(image, value);
    assert want[0].key == "name" && want[1].key == "digest";
    assert UniqueKeys(want[0].value) && UniqueKeys(want[1].value);
    assert want[0].key[0] != want[1].key[0];
  }

  lemma SameTwoKeys(xs: seq<Member>, ys: seq<Member>, k: string, l: string)
    requires UniqueKeys(Obj(xs)) && UniqueKeys(Obj(ys)) && KeySet(ys) == {k, l}
    ensures Same(Obj(xs), Obj(ys)) <==>
      KeySet(xs) == {k, l} && Same(Get(xs, k), Get(ys, k)) && Same(Get(xs, l), Get(ys, l))
  {
    SameByKey(xs, ys);
    assert k in KeySet(ys) && l in KeySet(ys);
  }

  lemma EntryIsNamed(v: Json, image: string, value: string)
    requires UniqueKeys(v)
    ensures Same(v, Obj(WantedEntry(image, value))) <==>
      && v.Obj? && KeySet(v.members) == {"name", "digest"}
      && Get(v.members, "name") == Str(image)
      && Same(Get(v.members, "digest"), Obj([Member("sha256", Str(value))]))
  {
    WantedEntryHolds(image, value);
    if v.Obj? {
      SameTwoKeys(v.members, WantedEntry(image, value), "name", "digest");
      SameText(Get(v.members, "name"), image);
    }
  }

  lemma SameText(v: Json, s: string)
    ensures Same(v, Str(s)) <==> v == Str(s)
  {
  }

  /** Comparing with the wanted subject asks for one image, its digest, and nothing more. */
  lemma SubjectIsOneImage(subject: Json, image: string, digest: string)
    requires UniqueKeys(subject)
    ensures Same(subject, SubjectFor(image, digest)) <==> OneImage(subject, image, digest)
    ensures forall hex :: digest == "sha256:" + hex ==>
              (OneImage(subject, image, digest) <==> NamesImage(subject, image, hex))
  {
    var value := WithoutPrefix(digest, DIGEST_PREFIX);
    assert value == if "sha256:" <= digest then digest[7..] else digest;
    assert forall hex :: digest == "sha256:" + hex ==> digest[7..] == hex;
    if subject.Arr? && |subject.items| == 1 {
      var entry := subject.items[0];
      EntryIsNamed(entry, image, value);
      if entry.Obj? {
        GetIsUnique(entry.members, "digest");
        DigestIsNamed(Get(entry.members, "digest"), value);
      }
    }
  }

  /** A record that is read at all: an object of the in-toto payload type with a text as payload. */
  ghost predicate InToto(record: Json) {
    && record.Obj? && Get(record.members, "payloadType") == Str("application/vnd.in-toto+json")
    && Get(record.members, "payload").Str?
  }

  ghost predicate AboutImage(statement: Json, want: Wanted) {
    && statement.Obj? && OneImage(Get(statement.members, "subject"), want.image, want.digest)
    && Get(statement.members, "_type") == Str("https://in-toto.io/Statement/v0.1")
    && Get(statement.members, "predicateType") == Str(want.predicateType)
  }

  ghost predicate SafeNumbers(v: Json) {
    forall x :: Occurs(x, v) ==> SafeNumber(x)
  }

  /** What a match is to mean: a statement of the right type about exactly this image, whose predicate
      is the same JSON as the local one, with numbers that can be compared. */
  ghost predicate SameEvidence(record: Json, want: Wanted, decode: string -> Option<Json>) {
    && InToto(record)
    && var statement := decode(Get(record.members, "payload").s);
       && statement.Some? && AboutImage(statement.value, want)
       && SafeNumbers(Get(statement.value.members, "predicate")) && SafeNumbers(want.predicate_)
       && Same(Get(statement.value.members, "predicate"), want.predicate_)
  }

  /** What is fatal: a payload that is no object, or a predicate about this image that cannot be compared. */
  ghost predicate Fatal(record: Json, want: Wanted, decode: string -> Option<Json>) {
    && InToto(record)
    && var statement := decode(Get(record.members, "payload").s);
       || statement.None? || !statement.value.Obj?
       || (AboutImage(statement.value, want)
           && !(SafeNumbers(Get(statement.value.members, "predicate")) && SafeNumbers(want.predicate_)))
  }

  /** Decoding a payload refuses repeated keys. */
  ghost predicate UniqueDecoded(decode: string -> Option<Json>) {
    forall t :: decode(t).Some? ==> UniqueKeys(decode(t).value)
  }

  lemma NamedSubject(statement: Json, want: Wanted)
    requires UniqueKeys(statement)
    ensures NamesSubject(statement, want) <==> AboutImage(statement, want)
  {
    if statement.Obj? {
      GetIsUnique(statement.members, "subject");
      SubjectIsOneImage(Get(statement.members, "subject"), want.image, want.digest);
    }
  }

  lemma PredicatesCompare(statement: Json, want: Wanted, ft: FloatText)
    requires FaithfulFloats(ft) && UniqueKeys(want.predicate_) && UniqueKeys(statement) && statement.Obj?
    ensures var theirs := Get(statement.members, "predicate");
      && (CanonicalText(theirs, ft).Some? <==> SafeNumbers(theirs))
      && (CanonicalText(want.predicate_, ft).Some? <==> SafeNumbers(want.predicate_))
      && (SafeNumbers(theirs) && SafeNumbers(want.predicate_) ==>
            (CanonicalText(theirs, ft) == CanonicalText(want.predicate_, ft) <==> Same(theirs, want.predicate_)))
  {
    GetIsUnique(statement.members, "predicate");
    CanonicalTextDecidesSame(Get(statement.members, "predicate"), want.predicate_, ft);
    CanonicalTextDecidesSame(want.predicate_, want.predicate_, ft);
  }

  /** A match means what it should, and only what should be is fatal. */
  lemma MatchMeansSameEvidence(record: Json, want: Wanted, decode: string -> Option<Json>, ft: FloatText)
    requires FaithfulFloats(ft) && UniqueKeys(want.predicate_) && UniqueDecoded(decode)
    ensures Judge(record, want, decode, ft) == Matched <==> SameEvidence(record, want, decode)
    ensures Judge(record, want, decode, ft) == Invalid <==> Fatal(record, want, decode)
    ensures Judge(record, want, decode, ft) == Skipped <==> !InToto(record)
  {
    if InToto(record) {
      var statement := decode(Get(record.members, "payload").s);
      if statement.Some? && statement.value.Obj? {
        NamedSubject(statement.value, want);
        PredicatesCompare(statement.value, want, ft);
      }
    }
  }

  /** So verification succeeds exactly when no record is fatal and one at least is the same evidence. */
  lemma AcceptsExactly(records: seq<Json>, want: Wanted, decode: string -> Option<Json>, ft: FloatText)
    requires FaithfulFloats(ft) && UniqueKeys(want.predicate_) && UniqueDecoded(decode)
    ensures Accepts(records, want, decode, ft) <==>
      && (forall r :: r in records ==> !Fatal(r, want, decode))
      && (exists r :: r in records && SameEvidence(r, want, decode))
  {
    VerdictOfSome(records, want, decode, ft, Invalid);
    VerdictOfSome(records, want, decode, ft, Matched);
    forall r | r in records
      ensures Judge(r, want, decode, ft) == Invalid <==> Fatal(r, want, decode)
      ensures Judge(r, want, decode, ft) == Matched <==> SameEvidence(r, want, decode)
    {
      MatchMeansSameEvidence(r, want, decode, ft);
    }
  }

  lemma VerdictOfSome(records: seq<Json>, want: Wanted, decode: string -> Option<Json>, ft: FloatText, v: Verdict)
    ensures v in Verdicts(records, want, decode, ft) <==> exists r :: r in records && Judge(r, want, decode, ft) == v
  {
    var verdicts := Verdicts(records, want, decode, ft);
    if v in verdicts {
      var i :| 0 <= i < |verdicts| && verdicts[i] == v;
      assert records[i] in records;
    }
    if r :| r in records && Judge(r, want, decode, ft) == v {
      var i :| 0 <= i < |records| && records[i] == r;
      assert verdicts[i] == v;
    }
  }

  /** The result depends on which records there are, not on their order or number. */
  lemma SameRecordsSameResult(a: seq<Json>, b: seq<Json>, want: Wanted, decode: string -> Option<Json>, ft: FloatText)
    requires forall r :: Judge(r, want, decode, ft) != Skipped ==> (r in a <==> r in b)
    ensures Accepts(a, want, decode, ft) <==> Accepts(b, want, decode, ft)
  {
    VerdictOfSome(a, want, decode, ft, Invalid);
    VerdictOfSome(b, want, decode, ft, Invalid);
    VerdictOfSome(a, want, decode, ft, Matched);
    VerdictOfSome(b, want, decode, ft, Matched);
  }

  lemma OrderDoesNotMatter(a: seq<Json>, b: seq<Json>, want: Wanted, decode: string -> Option<Json>, ft: FloatText)
    requires multiset(a) == multiset(b)
    ensures Accepts(a, want, decode, ft) <==> Accepts(b, want, decode, ft)
  {
    forall r ensures r in a <==> r in b {
      assert r in a <==> r in multiset(a);
      assert r in b <==> r in multiset(b);
    }
    SameRecordsSameResult(a, b, want, decode, ft);
  }

  /** Nor on records that are not in-toto envelopes. */
  lemma OtherRecordsDoNotMatter(a: seq<Json>, other: Json, b: seq<Json>, want: Wanted,
                                decode: string -> Option<Json>, ft: FloatText)
    requires !InToto(other)
    ensures Accepts(a + [other] + b, want, decode, ft) <==> Accepts(a + b, want, decode, ft)
  {
    assert Judge(other, want, decode, ft) == Skipped;
    SameRecordsSameResult(a + [other] + b, a + b, want, decode, ft);
  }
}
