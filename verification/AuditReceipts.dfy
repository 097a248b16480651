/** The fence's connection receipts as text: one line each, and readable back. */
module AuditReceipts {
  import opened Outcomes
  import opened Text
  import opened Numerals

  /** The two UTC instants are texts in the RFC 3339 alphabet. */
  datatype Receipt = Receipt(
    validatorSet: string, holder: string, lease: string, id: nat,
    openedUtc: string, closedUtc: string, openedMs: int, closedMs: int, result: string)

  // ------------------------------------------------------------- the field alphabet

  predicate FieldChar(c: char) {
    'a' <= c <= 'z' || 'A' <= c <= 'Z' || '0' <= c <= '9' || c == '-' || c == '_' || c == '.' || c == ':'
  }

  predicate ValidField(value: string) {
    value != "" && forall i :: 0 <= i < |value| ==> FieldChar(value[i])
  }

  /** What start-up demands of the lease name, the holder and the validator set. */
  method ValidAuditField(value: string) returns (ok: bool)
    ensures ok <==> ValidField(value)
    ensures ok <==> value != "" && forall c <- value ::
      'a' <= c <= 'z' || 'A' <= c <= 'Z' || '0' <= c <= '9' || c in "-_.:"
  {
    if value == "" {
      return false;
    }
    for i := 0 to |value|
      invariant forall j :: 0 <= j < i ==> FieldChar(value[j])
    {
      var character := value[i];
      assert character in value;
      if !('a' <= character <= 'z' || 'A' <= character <= 'Z' || '0' <= character <= '9'
           || character == '-' || character == '_' || character == '.' || character == ':') {
        return false;
      }
    }
    ok := true;
  }

  /** Time texts use only field characters. */
  predicate ValidReceipt(r: Receipt) {
    && ValidField(r.validatorSet) && ValidField(r.holder) && ValidField(r.lease)
    && ValidField(r.openedUtc) && ValidField(r.closedUtc) && ValidField(r.result)
  }

  // ----------------------------------------------------------------- printing

  datatype Pair = Pair(key: string, value: string)

  function Pairs(r: Receipt): seq<Pair> {
    [ Pair("validator_set", r.validatorSet), Pair("holder", r.holder), Pair("lease", r.lease),
      Pair("connection_id", Padded(r.id, 16, 16)),
      Pair("opened_at_utc", r.openedUtc), Pair("closed_at_utc", r.closedUtc),
      Pair("opened_at_ms", Decimal(r.openedMs)), Pair("closed_at_ms", Decimal(r.closedMs)),
      Pair("result", r.result) ]
  }

  function Token(p: Pair): string {
    p.key + "=" + p.value
  }

  function Tokens(pairs: seq<Pair>): seq<string> {
    seq(|pairs|, i requires 0 <= i < |pairs| => Token(pairs[i]))
  }

  /** A receipt line without its newline. */
  function Line(r: Receipt): string {
    Join(["fence_connection"] + Tokens(Pairs(r)), ' ')
  }

  // ------------------------------------------------------------------ reading

  function ReadToken(t: string): Option<Pair> {
    var sides := Split(t, '=');
    if |sides| == 2 then Some(Pair(sides[0], sides[1])) else None
  }

  function ReadTokens(tokens: seq<string>): Option<seq<Pair>> {
    if tokens == [] then Some([])
    else
      match (ReadToken(tokens[0]), ReadTokens(tokens[1..]))
      case (Some(p), Some(rest)) => Some([p] + rest)
      case _ => None
  }

  /** Split at spaces, then each token at its equals sign. */
  function ReadLine(line: string): Option<seq<Pair>> {
    var tokens := Split(line, ' ');
    if tokens[0] == "fence_connection" then ReadTokens(tokens[1..]) else None
  }

  predicate Clean(s: string) {
    forall i :: 0 <= i < |s| ==> FieldChar(s[i])
  }

  predicate CleanPair(p: Pair) {
    Clean(p.key) && Clean(p.value)
  }

  lemma HexIsClean(s: string)
    requires AllHex(s)
    ensures Clean(s)
  {
  }

  lemma DecimalIsClean(n: int)
    ensures Clean(Decimal(n))
  {
    DecimalDigits(if n < 0 then -n else n);
  }

  lemma KeysAreClean()
    ensures Clean("validator_set") && Clean("holder") && Clean("lease") && Clean("connection_id")
    ensures Clean("opened_at_utc") && Clean("closed_at_utc") && Clean("result")
    ensures Clean("opened_at_ms") && Clean("closed_at_ms")
  {
  }

  lemma PairsAreClean(r: Receipt)
    requires ValidReceipt(r)
    ensures forall i :: 0 <= i < |Pairs(r)| ==> CleanPair(Pairs(r)[i])
  {
    KeysAreClean();
    HexIsClean(Padded(r.id, 16, 16));
    DecimalIsClean(r.openedMs);
    DecimalIsClean(r.closedMs);
  }

  lemma ReadPrintedToken(p: Pair)
    requires CleanPair(p)
    ensures ReadToken(Token(p)) == Some(p)
    ensures ' ' !in Token(p) && '\n' !in Token(p)
  {
    assert Free(p.key, '=') && Free(p.value, '=');
    SplitFirst(p.key, p.value, '=');
    SplitWhole(p.value, '=');
  }

  lemma {:induction false} ReadPrintedTokens(pairs: seq<Pair>)
    requires forall i :: 0 <= i < |pairs| ==> CleanPair(pairs[i])
    ensures ReadTokens(Tokens(pairs)) == Some(pairs)
  {
    if pairs == [] {
    } else {
      ReadPrintedToken(pairs[0]);
      ReadPrintedTokens(pairs[1..]);
      assert Tokens(pairs)[1..] == Tokens(pairs[1..]);
      assert pairs == [pairs[0]] + pairs[1..];
    }
  }

  /** A receipt reads back to exactly its fields, each under its own key. */
  lemma ReceiptReadsBack(r: Receipt)
    requires ValidReceipt(r)
    ensures ReadLine(Line(r)) == Some(Pairs(r))
    ensures ReadLine(Line(r)) == Some([
      Pair("validator_set", r.validatorSet), Pair("holder", r.holder), Pair("lease", r.lease),
      Pair("connection_id", Padded(r.id, 16, 16)), Pair("opened_at_utc", r.openedUtc),
      Pair("closed_at_utc", r.closedUtc), Pair("opened_at_ms", Decimal(r.openedMs)),
      Pair("closed_at_ms", Decimal(r.closedMs)), Pair("result", r.result)])
  {
    var parts := ["fence_connection"] + Tokens(Pairs(r));
    PairsAreClean(r);
    forall i | 0 <= i < |parts| ensures Free(parts[i], ' ') {
      if i > 0 {
        ReadPrintedToken(Pairs(r)[i - 1]);
      }
    }
    SplitJoin(parts, ' ');
    assert parts[1..] == Tokens(Pairs(r));
    ReadPrintedTokens(Pairs(r));
  }

  /** So no two receipts share a line, and the connection id can be read from it. */
  lemma ReceiptsAreDistinguished(a: Receipt, b: Receipt)
    requires ValidReceipt(a) && ValidReceipt(b) && Line(a) == Line(b)
    ensures a == b
  {
    ReceiptReadsBack(a);
    ReceiptReadsBack(b);
    var pa, pb := Pairs(a), Pairs(b);
    assert pa == pb;
    assert pa[0] == pb[0] && pa[1] == pb[1] && pa[2] == pb[2] && pa[3] == pb[3] && pa[4] == pb[4];
    assert pa[5] == pb[5] && pa[6] == pb[6] && pa[7] == pb[7] && pa[8] == pb[8];
    PaddedIsInjective(a.id, b.id, 16, 16);
    DecimalIsInjective(a.openedMs, b.openedMs);
    DecimalIsInjective(a.closedMs, b.closedMs);
  }

  /** The counter, while it has not wrapped, is printed as sixteen hexadecimal digits. */
  lemma IdIsSixteenDigits(id: nat)
    requires id < 0x1_0000_0000_0000_0000
    ensures |Padded(id, 16, 16)| == 16 && Value(Padded(id, 16, 16), 16) == id
  {
    assert Power16(4) == 0x1_0000 && Power16(8) == 0x1_0000_0000;
    assert Power16(12) == 0x1_0000_0000_0000 && Power16(16) == 0x1_0000_0000_0000_0000;
    PaddedExactly(id, 16);
  }

  // -------------------------------------------------------------------- the log

  lemma {:induction false} JoinedIsFree(parts: seq<string>, sep: char, c: char)
    requires c != sep && AllFree(parts, c)
    ensures Free(Join(parts, sep), c)
  {
    if |parts| == 0 {
    } else if |parts| == 1 {
      assert Free(parts[0], c);
    } else {
      assert Free(parts[0], c);
      assert forall i :: 0 <= i < |parts[1..]| ==> parts[1..][i] == parts[i + 1];
      JoinedIsFree(parts[1..], sep, c);
    }
  }

  lemma LineIsOneLine(r: Receipt)
    requires ValidReceipt(r)
    ensures Free(Line(r), '\n')
  {
    var parts := ["fence_connection"] + Tokens(Pairs(r));
    PairsAreClean(r);
    forall i | 0 <= i < |parts| ensures Free(parts[i], '\n') {
      if i > 0 {
        ReadPrintedToken(Pairs(r)[i - 1]);
      }
    }
    JoinedIsFree(parts, ' ', '\n');
  }

  function Lines(rs: seq<Receipt>): seq<string> {
    seq(|rs|, i requires 0 <= i < |rs| => Line(rs[i]))
  }

  /** The writer and the counter that connections share. */
  class ConnectionAudit {
    var nextID: nat
    var log: string
    ghost var written: seq<Receipt>

    ghost predicate Valid()
      reads this
    {
      log == Unlines(Lines(written), '\n')
    }

    constructor ()
      ensures Valid() && written == [] && nextID == 0
    {
      nextID, log, written := 0, "", [];
    }

    /** A fresh connection id. */
    method Begin() returns (id: nat)
      requires Valid()
      modifies this`nextID
      ensures Valid() && id == nextID == old(nextID) + 1
    {
      nextID := nextID + 1;
      id := nextID;
    }

    /** One whole line per receipt, after everything written before. */
    method Close(r: Receipt)
      requires Valid()
      modifies this`log, this`written
      ensures Valid() && written == old(written) + [r]
      ensures log == old(log) + Line(r) + "\n"
    {
      log := log + Line(r) + "\n";
      written := written + [r];
      UnlinesAppend(Lines(old(written)), Line(r), '\n');
      assert Lines(written) == Lines(old(written)) + [Line(r)];
    }
  }

  /** Splitting the log at newlines gives back the receipts' lines, one each. */
  lemma LogSplitsIntoReceipts(rs: seq<Receipt>)
    requires forall i :: 0 <= i < |rs| ==> ValidReceipt(rs[i])
    ensures Split(Unlines(Lines(rs), '\n'), '\n') == Lines(rs) + [""]
    ensures forall i :: 0 <= i < |rs| ==> ReadLine(Lines(rs)[i]) == Some(Pairs(rs[i]))
  {
    forall i | 0 <= i < |rs| ensures Free(Lines(rs)[i], '\n') {
      LineIsOneLine(rs[i]);
    }
    SplitUnlines(Lines(rs), '\n');
    forall i | 0 <= i < |rs| ensures ReadLine(Lines(rs)[i]) == Some(Pairs(rs[i])) {
      ReceiptReadsBack(rs[i]);
    }
  }
}
