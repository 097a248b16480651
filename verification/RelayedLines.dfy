/** Which of the file's lines get through: the records between ends of file are the lines
    that fit exactly when no line is torn by an end, and following the file and reopening
    it at its end delivers them all exactly when they arrive one to an opening. */
module RelayedLines {
  import opened BufferedReading
  import opened LineFollower
  import opened Text

  function Appends(t: Token): Bytes {
    if t.Data? then [t.b] else []
  }

  /** Everything that was appended to the file, in order. */
  function Content(tokens: seq<Token>): Bytes {
    if tokens == [] then [] else Appends(tokens[0]) + Content(tokens[1..])
  }

  /** The terminated lines. */
  function Lines(content: Bytes): seq<Bytes> {
    var parts := Split(content, NEWLINE);
    parts[..|parts| - 1]
  }

  function Fitting(lines: seq<Bytes>, capacity: nat): seq<Bytes> {
    if lines == [] then []
    else (if |lines[0]| < capacity then [lines[0]] else []) + Fitting(lines[1..], capacity)
  }

  /** The lines that fit with their newline. */
  function Wanted(tokens: seq<Token>, capacity: nat): seq<Bytes> {
    Fitting(Lines(Content(tokens)), capacity)
  }

  predicate NoFault(tokens: seq<Token>) {
    Fault !in tokens
  }

  /** At every newline the record since the last end of file is the whole line, or does
      not fit; given the lengths of the line and of the record so far. */
  predicate Untorn(tokens: seq<Token>, line: nat, record: nat, capacity: nat) {
    if tokens == [] then true
    else
      match tokens[0]
      case Eof => Untorn(tokens[1..], line, 0, capacity)
      case Fault => true
      case Data(b) =>
        if b != NEWLINE then Untorn(tokens[1..], line + 1, record + 1, capacity)
        else (record < capacity ==> record == line) && Untorn(tokens[1..], 0, 0, capacity)
  }

  /** Every end of file was met at the start of a line. */
  predicate EndsAtBoundaries(tokens: seq<Token>) {
    forall i :: 0 < i < |tokens| && tokens[i] == Eof ==> tokens[i - 1] == Eof || tokens[i - 1] == Data(NEWLINE)
  }

  // ---- Records and lines

  function WantedAfter(line: Bytes, tokens: seq<Token>, capacity: nat): seq<Bytes> {
    Fitting(Lines(line + Content(tokens)), capacity)
  }

  lemma {:induction false} FittingConcat(a: seq<Bytes>, b: seq<Bytes>, capacity: nat)
    ensures Fitting(a + b, capacity) == Fitting(a, capacity) + Fitting(b, capacity)
  {
    if a == [] {
      assert a + b == b;
    } else {
      assert (a + b)[1..] == a[1..] + b;
      FittingConcat(a[1..], b, capacity);
    }
  }

  lemma LinesAtNewline(before: Bytes, after: Bytes)
    ensures Lines(before + [NEWLINE] + after) == Split(before, NEWLINE) + Lines(after)
  {
    SplitConcat(before, after, NEWLINE);
    var a, b := Split(before, NEWLINE), Split(after, NEWLINE);
    assert (a + b)[..|a + b| - 1] == a + b[..|b| - 1];
  }

  lemma WantedAtEnd(line: Bytes, capacity: nat)
    requires Free(line, NEWLINE)
    ensures WantedAfter(line, [], capacity) == []
  {
    assert line + [] == line;
    SplitWhole(line, NEWLINE);
  }

  lemma WantedStep(line: Bytes, tokens: seq<Token>, capacity: nat)
    requires tokens != [] && Free(line, NEWLINE)
    ensures WantedAfter(line, tokens, capacity) ==
      if !tokens[0].Data? then WantedAfter(line, tokens[1..], capacity)
      else if tokens[0].b != NEWLINE then WantedAfter(line + [tokens[0].b], tokens[1..], capacity)
      else (if |line| < capacity then [line] else []) + WantedAfter([], tokens[1..], capacity)
  {
    var rest := Content(tokens[1..]);
    if !tokens[0].Data? {
      assert [] + rest == rest;
    } else if tokens[0].b != NEWLINE {
      assert line + ([tokens[0].b] + rest) == line + [tokens[0].b] + rest;
    } else {
      assert line + ([NEWLINE] + rest) == line + [NEWLINE] + rest;
      LinesAtNewline(line, rest);
      SplitWhole(line, NEWLINE);
      FittingConcat([line], Lines(rest), capacity);
      assert [line][1..] == [] && [] + rest == rest;
    }
  }

  /** The last bytes of the line so far. */
  ghost predicate EndsWith(line: Bytes, record: Bytes) {
    |record| <= |line| && line[|line| - |record|..] == record
  }

  lemma {:induction false} KeptAgainstWanted(tokens: seq<Token>, line: Bytes, record: Bytes, capacity: nat)
    requires NoFault(tokens) && Free(line, NEWLINE) && EndsWith(line, record)
    ensures |Kept(tokens, record, capacity)| >= |WantedAfter(line, tokens, capacity)|
    ensures Kept(tokens, record, capacity) == WantedAfter(line, tokens, capacity)
      <==> Untorn(tokens, |line|, |record|, capacity)
    decreases |tokens|
  {
    if tokens == [] {
      WantedAtEnd(line, capacity);
    } else {
      assert tokens[0] in tokens && NoFault(tokens[1..]);
      WantedStep(line, tokens, capacity);
      match tokens[0]
      case Eof =>
        KeptAgainstWanted(tokens[1..], line, [], capacity);
      case Data(b) =>
        if b != NEWLINE {
          KeptAgainstWanted(tokens[1..], line + [b], record + [b], capacity);
        } else {
          KeptAgainstWanted(tokens[1..], [], [], capacity);
          LineAgainstRecord(line, record, Kept(tokens[1..], [], capacity),
                            WantedAfter([], tokens[1..], capacity), capacity);
        }
    }
  }

  lemma LineAgainstRecord(line: Bytes, record: Bytes, kept: seq<Bytes>, wanted: seq<Bytes>, capacity: nat)
    requires EndsWith(line, record) && |kept| >= |wanted|
    ensures var k := (if |record| < capacity then [record] else []) + kept;
      var w := (if |line| < capacity then [line] else []) + wanted;
      |k| >= |w| && (k == w <==> (|record| < capacity ==> |record| == |line|) && kept == wanted)
  {
    var k := (if |record| < capacity then [record] else []) + kept;
    var w := (if |line| < capacity then [line] else []) + wanted;
    if |record| == |line| {
      assert line[0..] == record == line;
    }
    if |record| >= capacity {
      assert k == kept && w == wanted;
    } else {
      assert k[0] == record && k[1..] == kept;
      if |line| < capacity {
        assert w[0] == line && w[1..] == wanted;
      } else {
        assert w == wanted && |k| > |w|;
      }
    }
  }

  /** Without a failing read, the records kept are the lines that fit exactly when no line
      whose last fragment fits was torn by an end of file. */
  lemma KeptAreTheLinesExactly(tokens: seq<Token>, capacity: nat)
    requires NoFault(tokens)
    ensures Kept(tokens, [], capacity) == Wanted(tokens, capacity) <==> Untorn(tokens, 0, 0, capacity)
  {
    KeptAgainstWanted(tokens, [], [], capacity);
    assert [] + Content(tokens) == Content(tokens);
  }

  lemma {:induction false} BoundariesDoNotTear(tokens: seq<Token>, n: nat, capacity: nat)
    requires EndsAtBoundaries(tokens)
    requires n > 0 && tokens != [] ==> tokens[0] != Eof
    ensures Untorn(tokens, n, n, capacity)
    decreases |tokens|
  {
    if tokens != [] {
      var rest := tokens[1..];
      assert rest != [] ==> tokens[1] == rest[0];
      assert EndsAtBoundaries(rest) by {
        forall i | 0 < i < |rest| && rest[i] == Eof ensures rest[i - 1] == Eof || rest[i - 1] == Data(NEWLINE) {
          assert tokens[i + 1] == Eof && tokens[i] == rest[i - 1];
        }
      }
      match tokens[0]
      case Eof => BoundariesDoNotTear(rest, 0, capacity);
      case Fault =>
      case Data(b) => BoundariesDoNotTear(rest, if b == NEWLINE then 0 else n + 1, capacity);
    }
  }

  // ---- One opening of the file

  /** An opening in which no line was torn and no read failed delivers the first line that
      fits; so it delivers all of them exactly when there is at most one. */
  lemma OneLineToAnOpening(tokens: seq<Token>, capacity: nat)
    requires capacity > 0 && NoFault(tokens) && Untorn(tokens, 0, 0, capacity)
    ensures Follow(tokens, capacity) == First(Wanted(tokens, capacity))
    ensures Follow(tokens, capacity) == Wanted(tokens, capacity) <==> |Wanted(tokens, capacity)| <= 1
  {
    FollowHandsOnTheFirst(tokens, capacity);
    KeptAreTheLinesExactly(tokens, capacity);
  }

  /** Two lines that arrive together: the second is lost. */
  lemma SecondLineIsLost(first: Byte, second: Byte, capacity: nat)
    requires first != NEWLINE && second != NEWLINE && capacity >= 2
    ensures var tokens := AsData([first, NEWLINE, second, NEWLINE]);
      && Wanted(tokens, capacity) == [[first], [second]]
      && Follow(tokens, capacity) == [[first]]
  {
    var tokens := AsData([first, NEWLINE, second, NEWLINE]);
    BoundariesDoNotTear(tokens, 0, capacity);
    OneLineToAnOpening(tokens, capacity);
    TwoLinesAreWanted(first, second, capacity);
    assert tokens == [Data(first), Data(NEWLINE), Data(second), Data(NEWLINE)];
  }

  lemma OneLineIsWanted(b: Byte, rest: seq<Token>, capacity: nat)
    requires b != NEWLINE && capacity >= 2
    ensures WantedAfter([], [Data(b), Data(NEWLINE)] + rest, capacity) == [[b]] + WantedAfter([], rest, capacity)
  {
    var tokens := [Data(b), Data(NEWLINE)] + rest;
    WantedStep([], tokens, capacity);
    assert tokens[1..] == [Data(NEWLINE)] + rest && [] + [b] == [b];
    WantedStep([b], [Data(NEWLINE)] + rest, capacity);
    assert ([Data(NEWLINE)] + rest)[1..] == rest;
  }

  lemma TwoLinesAreWanted(first: Byte, second: Byte, capacity: nat)
    requires first != NEWLINE && second != NEWLINE && capacity >= 2
    ensures Wanted([Data(first), Data(NEWLINE), Data(second), Data(NEWLINE)], capacity) == [[first], [second]]
  {
    var tokens := [Data(first), Data(NEWLINE), Data(second), Data(NEWLINE)];
    assert [] + Content(tokens) == Content(tokens);
    assert tokens == [Data(first), Data(NEWLINE)] + [Data(second), Data(NEWLINE)];
    OneLineIsWanted(first, [Data(second), Data(NEWLINE)], capacity);
    OneLineIsWanted(second, [], capacity);
    assert [Data(second), Data(NEWLINE)] + [] == [Data(second), Data(NEWLINE)];
    WantedAtEnd([], capacity);
  }

  /** A line torn by an end of file: its head is dropped and its tail taken for a line. */
  lemma TornLineIsCut(head: Byte, tail: Byte, capacity: nat)
    requires head != NEWLINE && tail != NEWLINE && capacity >= 3
    ensures var tokens := [Data(head), Eof, Data(tail), Data(NEWLINE)];
      Wanted(tokens, capacity) == [[head, tail]] && Follow(tokens, capacity) == [[tail]]
  {
    var tokens := [Data(head), Eof, Data(tail), Data(NEWLINE)];
    FollowHandsOnTheFirst(tokens, capacity);
    TornLineIsKept(head, tail, capacity);
    TornLineIsWanted(head, tail, capacity);
  }

  lemma TornLineIsKept(head: Byte, tail: Byte, capacity: nat)
    requires head != NEWLINE && tail != NEWLINE && capacity >= 3
    ensures Kept([Data(head), Eof, Data(tail), Data(NEWLINE)], [], capacity) == [[tail]]
  {
    var newline := [Data(NEWLINE)];
    assert newline[1..] == [];
    assert Kept(newline, [tail], capacity) == [[tail]];
    var second := [Data(tail), Data(NEWLINE)];
    assert second[1..] == newline && [] + [tail] == [tail];
    assert Kept(second, [], capacity) == [[tail]];
    var torn := [Eof, Data(tail), Data(NEWLINE)];
    assert torn[1..] == second;
    assert Kept(torn, [head], capacity) == [[tail]];
    assert [Data(head), Eof, Data(tail), Data(NEWLINE)][1..] == torn && [] + [head] == [head];
  }

  lemma TornLineIsWanted(head: Byte, tail: Byte, capacity: nat)
    requires head != NEWLINE && tail != NEWLINE && capacity >= 3
    ensures Wanted([Data(head), Eof, Data(tail), Data(NEWLINE)], capacity) == [[head, tail]]
  {
    var tokens := [Data(head), Eof, Data(tail), Data(NEWLINE)];
    assert [] + Content(tokens) == Content(tokens);
    WantedStep([], tokens, capacity);
    assert tokens[1..] == [Eof, Data(tail), Data(NEWLINE)] && [] + [head] == [head];
    WantedStep([head], [Eof, Data(tail), Data(NEWLINE)], capacity);
    assert [Eof, Data(tail), Data(NEWLINE)][1..] == [Data(tail), Data(NEWLINE)];
    WantedStep([head], [Data(tail), Data(NEWLINE)], capacity);
    assert [Data(tail), Data(NEWLINE)][1..] == [Data(NEWLINE)] && [head] + [tail] == [head, tail];
    WantedStep([head, tail], [Data(NEWLINE)], capacity);
    assert [Data(NEWLINE)][1..] == [];
    WantedAtEnd([], capacity);
  }

  // ---- Reopening the file at its end

  /** What is appended from one opening to the next, read or not, and what the loop hands
      on of it; `TailFile` closes the file when the loop returns and opens it at its end. */
  function Tail(openings: seq<seq<Token>>, capacity: nat): seq<Bytes>
    requires capacity > 0
  {
    if openings == [] then []
    else Tail(openings[..|openings| - 1], capacity) + Follow(openings[|openings| - 1], capacity)
  }

  function Appended(openings: seq<seq<Token>>): seq<Token> {
    if openings == [] then []
    else Appended(openings[..|openings| - 1]) + openings[|openings| - 1]
  }

  method TailFile(openings: seq<seq<Event>>) returns (records: seq<Bytes>)
    ensures records == Tail(seq(|openings|, i requires 0 <= i < |openings| => Tokens(openings[i])), MAX_RECORD_BYTES)
  {
    ghost var all := seq(|openings|, i requires 0 <= i < |openings| => Tokens(openings[i]));
    records := [];
    for i := 0 to |openings|
      invariant records == Tail(all[..i], MAX_RECORD_BYTES)
    {
      var reader := new BufferedReader(openings[i], MAX_RECORD_BYTES);
      var handedOn := FollowFile(reader);
      records := records + handedOn;
      assert all[..i + 1][..i] == all[..i];
    }
    assert all[..|openings|] == all;
  }

  /** The opening ends, as it began, at the start of a line, and tears none. */
  predicate WholeLines(tokens: seq<Token>, capacity: nat) {
    NoFault(tokens) && Untorn(tokens, 0, 0, capacity)
    && (Content(tokens) == [] || Content(tokens)[|Content(tokens)| - 1] == NEWLINE)
  }

  lemma {:induction false} ContentConcat(a: seq<Token>, b: seq<Token>)
    ensures Content(a + b) == Content(a) + Content(b)
  {
    if a == [] {
      assert a + b == b;
    } else {
      assert (a + b)[1..] == a[1..] + b && (a + b)[0] == a[0];
      ContentConcat(a[1..], b);
      Associative(Appends(a[0]), Content(a[1..]), Content(b));
    }
  }

  lemma LinesConcat(x: Bytes, y: Bytes)
    requires x == [] || x[|x| - 1] == NEWLINE
    ensures Lines(x + y) == Lines(x) + Lines(y)
  {
    SplitWhole<Byte>([], NEWLINE);
    if x == [] {
      assert x + y == y;
    } else {
      var before := x[..|x| - 1];
      assert x == before + [NEWLINE] + [] && x + y == before + [NEWLINE] + y;
      LinesAtNewline(before, []);
      LinesAtNewline(before, y);
      assert Lines([]) == [];
    }
  }

  lemma WantedConcat(a: seq<Token>, b: seq<Token>, capacity: nat)
    requires Content(a) == [] || Content(a)[|Content(a)| - 1] == NEWLINE
    ensures Wanted(a + b, capacity) == Wanted(a, capacity) + Wanted(b, capacity)
  {
    ContentConcat(a, b);
    LinesConcat(Content(a), Content(b));
    FittingConcat(Lines(Content(a)), Lines(Content(b)), capacity);
  }

  ghost predicate OneLineEach(openings: seq<seq<Token>>, capacity: nat) {
    forall i :: 0 <= i < |openings| ==> |Wanted(openings[i], capacity)| <= 1
  }

  ghost predicate AllWholeLines(openings: seq<seq<Token>>, capacity: nat) {
    forall i :: 0 <= i < |openings| ==> WholeLines(openings[i], capacity)
  }

  lemma LastOpening(openings: seq<seq<Token>>, capacity: nat)
    requires openings != []
    ensures var n := |openings| - 1;
      && (OneLineEach(openings, capacity) <==>
          OneLineEach(openings[..n], capacity) && |Wanted(openings[n], capacity)| <= 1)
      && (AllWholeLines(openings, capacity)
          <==> AllWholeLines(openings[..n], capacity) && WholeLines(openings[n], capacity))
  {
    var n := |openings| - 1;
    assert openings == openings[..n] + [openings[n]];
  }

  lemma {:induction false} AppendedIsWhole(openings: seq<seq<Token>>, capacity: nat)
    requires AllWholeLines(openings, capacity)
    ensures var content := Content(Appended(openings)); content == [] || content[|content| - 1] == NEWLINE
  {
    if openings != [] {
      LastOpening(openings, capacity);
      AppendedIsWhole(openings[..|openings| - 1], capacity);
      ContentConcat(Appended(openings[..|openings| - 1]), openings[|openings| - 1]);
    }
  }

  /** The file's lines get through exactly when no opening sees more than one that fits. */
  lemma {:induction false} TailDeliversExactly(openings: seq<seq<Token>>, capacity: nat)
    requires capacity > 0 && AllWholeLines(openings, capacity)
    ensures Tail(openings, capacity) == Wanted(Appended(openings), capacity) <==> OneLineEach(openings, capacity)
    ensures |Tail(openings, capacity)| <= |Wanted(Appended(openings), capacity)|
  {
    if openings == [] {
      SplitWhole<Byte>([], NEWLINE);
    } else {
      var n := |openings| - 1;
      LastOpening(openings, capacity);
      TailDeliversExactly(openings[..n], capacity);
      OneLineToAnOpening(openings[n], capacity);
      AppendedIsWhole(openings[..n], capacity);
      WantedConcat(Appended(openings[..n]), openings[n], capacity);
      ConcatsAgree(Tail(openings[..n], capacity), Wanted(Appended(openings[..n]), capacity),
                   Follow(openings[n], capacity), Wanted(openings[n], capacity));
    }
  }

  lemma ConcatsAgree<T>(a: seq<T>, b: seq<T>, c: seq<T>, d: seq<T>)
    requires |a| <= |b| && |c| <= |d|
    ensures a + c == b + d <==> a == b && c == d
  {
    if a + c == b + d {
      assert |a| == |b|;
      assert a == (a + c)[..|a|] && b == (b + d)[..|b|];
      assert c == (a + c)[|a|..] && d == (b + d)[|b|..];
    }
  }
}
