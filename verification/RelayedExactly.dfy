/** The same without any hypothesis on how the file was read: every line is told by where its
    newline stands in the file, and what the relay hands on is exactly the lines that fit if and
    only if each opening's first record to fit is a whole line and the last that fits. */
module RelayedExactly {
  import opened BufferedReading
  import opened LineFollower
  import opened RelayedLines
  import opened Text

  /** A line, and the position of its newline in everything appended to the file. */
  datatype Handed = Handed(end: nat, line: Bytes)

  function Values(handed: seq<Handed>): seq<Bytes> {
    if handed == [] then [] else [handed[0].line] + Values(handed[1..])
  }

  /** The records kept, from a position on. */
  function KeptAt(tokens: seq<Token>, record: Bytes, at: nat, capacity: nat): seq<Handed> {
    if tokens == [] then []
    else
      match tokens[0]
      case Eof => KeptAt(tokens[1..], [], at, capacity)
      case Fault => if |record| < capacity then [] else KeptAt(tokens[1..], [], at, capacity)
      case Data(b) =>
        if b != NEWLINE then KeptAt(tokens[1..], record + [b], at + 1, capacity)
        else (if |record| < capacity then [Handed(at, record)] else []) + KeptAt(tokens[1..], [], at + 1, capacity)
  }

  /** The lines that fit, from a position inside a line on. */
  function WantedAt(tokens: seq<Token>, line: Bytes, at: nat, capacity: nat): seq<Handed> {
    if tokens == [] then []
    else
      match tokens[0]
      case Data(b) =>
        if b != NEWLINE then WantedAt(tokens[1..], line + [b], at + 1, capacity)
        else (if |line| < capacity then [Handed(at, line)] else []) + WantedAt(tokens[1..], [], at + 1, capacity)
      case _ => WantedAt(tokens[1..], line, at, capacity)
  }

  /** No further line fits, the current one being of the given length so far. */
  predicate NoneFits(tokens: seq<Token>, line: nat, capacity: nat) {
    if tokens == [] then true
    else
      match tokens[0]
      case Data(b) =>
        if b != NEWLINE then NoneFits(tokens[1..], line + 1, capacity)
        else line >= capacity && NoneFits(tokens[1..], 0, capacity)
      case _ => NoneFits(tokens[1..], line, capacity)
  }

  /** The first record to fit is the whole line, and no line after it fits; nor does any after a
      read that fails, unless the failure ends an oversize record. */
  predicate ArrivesRight(tokens: seq<Token>, line: nat, record: nat, capacity: nat) {
    if tokens == [] then true
    else
      match tokens[0]
      case Eof => ArrivesRight(tokens[1..], line, 0, capacity)
      case Fault =>
        if record < capacity then NoneFits(tokens[1..], line, capacity)
        else ArrivesRight(tokens[1..], line, 0, capacity)
      case Data(b) =>
        if b != NEWLINE then ArrivesRight(tokens[1..], line + 1, record + 1, capacity)
        else if record < capacity then record == line && NoneFits(tokens[1..], 0, capacity)
        else ArrivesRight(tokens[1..], 0, 0, capacity)
  }

  // ---- What the positions stand for

  lemma {:induction false} ValuesConcat(a: seq<Handed>, b: seq<Handed>)
    ensures Values(a + b) == Values(a) + Values(b)
  {
    if a == [] {
      assert a + b == b;
    } else {
      assert (a + b)[1..] == a[1..] + b;
      ValuesConcat(a[1..], b);
    }
  }

  lemma ValuesOfFirst(a: seq<Handed>)
    ensures Values(First(a)) == First(Values(a))
  {
    if a != [] {
      assert [a[0]][1..] == [];
    }
  }

  lemma ValueOfOne(h: Handed)
    ensures Values([h]) == [h.line]
  {
    assert [h][1..] == [];
  }

  lemma {:induction false} KeptAtIsKept(tokens: seq<Token>, record: Bytes, at: nat, capacity: nat)
    ensures Values(KeptAt(tokens, record, at, capacity)) == Kept(tokens, record, capacity)
    decreases |tokens|
  {
    if tokens != [] {
      match tokens[0]
      case Eof => KeptAtIsKept(tokens[1..], [], at, capacity);
      case Fault => KeptAtIsKept(tokens[1..], [], at, capacity);
      case Data(b) =>
        KeptAtIsKept(tokens[1..], if b == NEWLINE then [] else record + [b], at + 1, capacity);
        ValueOfOne(Handed(at, record));
        ValuesConcat([Handed(at, record)], KeptAt(tokens[1..], [], at + 1, capacity));
        assert [] + KeptAt(tokens[1..], [], at + 1, capacity) == KeptAt(tokens[1..], [], at + 1, capacity);
    }
  }

  lemma {:induction false} WantedAtIsWanted(tokens: seq<Token>, line: Bytes, at: nat, capacity: nat)
    requires Free(line, NEWLINE)
    ensures Values(WantedAt(tokens, line, at, capacity)) == WantedAfter(line, tokens, capacity)
    decreases |tokens|
  {
    if tokens == [] {
      WantedAtEnd(line, capacity);
    } else {
      WantedStep(line, tokens, capacity);
      match tokens[0]
      case Data(b) =>
        WantedAtIsWanted(tokens[1..], if b == NEWLINE then [] else line + [b], at + 1, capacity);
        ValueOfOne(Handed(at, line));
        ValuesConcat([Handed(at, line)], WantedAt(tokens[1..], [], at + 1, capacity));
        assert [] + WantedAt(tokens[1..], [], at + 1, capacity) == WantedAt(tokens[1..], [], at + 1, capacity);
      case _ => WantedAtIsWanted(tokens[1..], line, at, capacity);
    }
  }

  ghost predicate Within(handed: seq<Handed>, from: nat, to: nat) {
    forall i :: 0 <= i < |handed| ==> from <= handed[i].end < to
  }

  lemma {:induction false} WantedWithin(tokens: seq<Token>, line: Bytes, at: nat, capacity: nat)
    ensures Within(WantedAt(tokens, line, at, capacity), at, at + |Content(tokens)|)
    decreases |tokens|
  {
    if tokens != [] {
      match tokens[0]
      case Data(b) => WantedWithin(tokens[1..], if b == NEWLINE then [] else line + [b], at + 1, capacity);
      case _ => WantedWithin(tokens[1..], line, at, capacity);
    }
  }

  lemma {:induction false} KeptWithin(tokens: seq<Token>, record: Bytes, at: nat, capacity: nat)
    ensures Within(KeptAt(tokens, record, at, capacity), at, at + |Content(tokens)|)
    decreases |tokens|
  {
    if tokens != [] {
      match tokens[0]
      case Data(b) => KeptWithin(tokens[1..], if b == NEWLINE then [] else record + [b], at + 1, capacity);
      case _ => KeptWithin(tokens[1..], [], at, capacity);
    }
  }

  // ---- One opening

  lemma {:induction false} NoneFitsExactly(tokens: seq<Token>, line: Bytes, at: nat, capacity: nat)
    ensures NoneFits(tokens, |line|, capacity) <==> WantedAt(tokens, line, at, capacity) == []
    decreases |tokens|
  {
    if tokens != [] {
      match tokens[0]
      case Data(b) => NoneFitsExactly(tokens[1..], if b == NEWLINE then [] else line + [b], at + 1, capacity);
      case _ => NoneFitsExactly(tokens[1..], line, at, capacity);
    }
  }

  lemma RecordAgainstLine(line: Bytes, record: Bytes, at: nat, kept: seq<Handed>, wanted: seq<Handed>, to: nat,
                          capacity: nat)
    requires EndsWith(line, record) && |record| < capacity && Within(wanted, at + 1, to)
    ensures First([Handed(at, record)] + kept) == (if |line| < capacity then [Handed(at, line)] else []) + wanted
      <==> |record| == |line| && wanted == []
  {
    var w := (if |line| < capacity then [Handed(at, line)] else []) + wanted;
    assert First([Handed(at, record)] + kept) == [Handed(at, record)];
    if |record| == |line| {
      assert line[0..] == record == line;
      assert w[0] == Handed(at, record) && w[1..] == wanted;
    } else if |line| < capacity {
      assert w[0].line == line;
    } else {
      assert w == wanted;
    }
  }

  /** From any point of an opening on, the first record that is kept is the one line that is
      wanted, or neither is there, exactly when it arrives right. */
  lemma {:induction false} HandedOnExactly(tokens: seq<Token>, line: Bytes, record: Bytes, at: nat, capacity: nat)
    requires EndsWith(line, record)
    ensures First(KeptAt(tokens, record, at, capacity)) == WantedAt(tokens, line, at, capacity)
      <==> ArrivesRight(tokens, |line|, |record|, capacity)
    decreases |tokens|
  {
    if tokens != [] {
      var rest := tokens[1..];
      match tokens[0]
      case Eof => HandedOnExactly(rest, line, [], at, capacity);
      case Fault =>
        if |record| < capacity {
          NoneFitsExactly(rest, line, at, capacity);
        } else {
          HandedOnExactly(rest, line, [], at, capacity);
        }
      case Data(b) =>
        if b != NEWLINE {
          HandedOnExactly(rest, line + [b], record + [b], at + 1, capacity);
        } else if |record| < capacity {
          NoneFitsExactly(rest, [], at + 1, capacity);
          WantedWithin(rest, [], at + 1, capacity);
          RecordAgainstLine(line, record, at, KeptAt(rest, [], at + 1, capacity), WantedAt(rest, [], at + 1, capacity),
                            at + 1 + |Content(rest)|, capacity);
        } else {
          HandedOnExactly(rest, [], [], at + 1, capacity);
          assert [] + KeptAt(rest, [], at + 1, capacity) == KeptAt(rest, [], at + 1, capacity);
          assert [] + WantedAt(rest, [], at + 1, capacity) == WantedAt(rest, [], at + 1, capacity);
        }
    }
  }

  /** What one run of the loop hands on of an opening that begins with part of a line behind it:
      the records of `Follow`, told by position, and exactly when they are the lines that fit. */
  lemma OpeningDeliversExactly(tokens: seq<Token>, behind: Bytes, at: nat, capacity: nat)
    requires capacity > 0
    ensures Follow(tokens, capacity) == Values(First(KeptAt(tokens, [], at, capacity)))
    ensures First(KeptAt(tokens, [], at, capacity)) == WantedAt(tokens, behind, at, capacity)
      <==> ArrivesRight(tokens, |behind|, 0, capacity)
  {
    FollowHandsOnTheFirst(tokens, capacity);
    KeptAtIsKept(tokens, [], at, capacity);
    ValuesOfFirst(KeptAt(tokens, [], at, capacity));
    HandedOnExactly(tokens, behind, [], at, capacity);
  }

  // ---- Every opening

  /** The line begun and not ended yet. */
  function LineAfter(tokens: seq<Token>, line: Bytes): Bytes {
    if tokens == [] then line
    else if !tokens[0].Data? then LineAfter(tokens[1..], line)
    else LineAfter(tokens[1..], if tokens[0].b == NEWLINE then [] else line + [tokens[0].b])
  }

  lemma {:induction false} WantedAtConcat(a: seq<Token>, b: seq<Token>, line: Bytes, at: nat, capacity: nat)
    ensures WantedAt(a + b, line, at, capacity)
      == WantedAt(a, line, at, capacity) + WantedAt(b, LineAfter(a, line), at + |Content(a)|, capacity)
    decreases |a|
  {
    if a == [] {
      assert a + b == b;
    } else {
      assert (a + b)[1..] == a[1..] + b && (a + b)[0] == a[0];
      match a[0]
      case Data(c) => WantedAtConcat(a[1..], b, if c == NEWLINE then [] else line + [c], at + 1, capacity);
      case _ => WantedAtConcat(a[1..], b, line, at, capacity);
    }
  }

  /** What following and reopening hands on, told by position. */
  function TailAt(openings: seq<seq<Token>>, capacity: nat): seq<Handed> {
    if openings == [] then []
    else
      var n := |openings| - 1;
      TailAt(openings[..n], capacity)
      + First(KeptAt(openings[n], [], |Content(Appended(openings[..n]))|, capacity))
  }

  /** Each opening arrives right, after what the ones before it left of a line. */
  predicate AllArriveRight(openings: seq<seq<Token>>, capacity: nat) {
    openings == []
    || (var n := |openings| - 1;
        AllArriveRight(openings[..n], capacity)
        && ArrivesRight(openings[n], |LineAfter(Appended(openings[..n]), [])|, 0, capacity))
  }

  lemma {:induction false} TailAtIsTail(openings: seq<seq<Token>>, capacity: nat)
    requires capacity > 0
    ensures Values(TailAt(openings, capacity)) == Tail(openings, capacity)
  {
    if openings != [] {
      var n := |openings| - 1;
      var at := |Content(Appended(openings[..n]))|;
      TailAtIsTail(openings[..n], capacity);
      OpeningDeliversExactly(openings[n], [], at, capacity);
      ValuesConcat(TailAt(openings[..n], capacity), First(KeptAt(openings[n], [], at, capacity)));
    }
  }

  lemma {:induction false} TailWithin(openings: seq<seq<Token>>, capacity: nat)
    ensures Within(TailAt(openings, capacity), 0, |Content(Appended(openings))|)
  {
    if openings != [] {
      var n := |openings| - 1;
      TailWithin(openings[..n], capacity);
      KeptWithin(openings[n], [], |Content(Appended(openings[..n]))|, capacity);
      ContentConcat(Appended(openings[..n]), openings[n]);
    }
  }

  lemma SplitByPosition(a: seq<Handed>, b: seq<Handed>, c: seq<Handed>, d: seq<Handed>, at: nat, to: nat)
    requires Within(a, 0, at) && Within(b, 0, at) && Within(c, at, to) && Within(d, at, to)
    ensures a + c == b + d <==> a == b && c == d
  {
    if a + c == b + d {
      assert |a| < |a + c| ==> (a + c)[|a|] == c[0];
      assert |b| < |b + d| ==> (b + d)[|b|] == d[0];
      assert |a| == |b|;
      assert a == (a + c)[..|a|] && b == (b + d)[..|b|];
      assert c == (a + c)[|a|..] && d == (b + d)[|b|..];
    }
  }

  /** The last opening delivers right on its own, whatever became of the ones before. */
  lemma LastOpeningExactly(openings: seq<seq<Token>>, capacity: nat)
    requires capacity > 0 && openings != []
    ensures var n := |openings| - 1;
      var before := Appended(openings[..n]);
      TailAt(openings, capacity) == WantedAt(Appended(openings), [], 0, capacity) <==>
        && TailAt(openings[..n], capacity) == WantedAt(before, [], 0, capacity)
        && ArrivesRight(openings[n], |LineAfter(before, [])|, 0, capacity)
  {
    var n := |openings| - 1;
    var before := Appended(openings[..n]);
    var at, behind := |Content(before)|, LineAfter(before, []);
    OpeningDeliversExactly(openings[n], behind, at, capacity);
    WantedAtConcat(before, openings[n], [], 0, capacity);
    SegmentsStayApart(openings[..n], openings[n], capacity);
    SplitByPosition(TailAt(openings[..n], capacity), WantedAt(before, [], 0, capacity),
                    First(KeptAt(openings[n], [], at, capacity)), WantedAt(openings[n], behind, at, capacity),
                    at, at + |Content(openings[n])|);
  }

  /** What comes of the openings before stands before what comes of the next. */
  lemma SegmentsStayApart(earlier: seq<seq<Token>>, tokens: seq<Token>, capacity: nat)
    ensures var before := Appended(earlier);
      var at, behind := |Content(before)|, LineAfter(before, []);
      && Within(TailAt(earlier, capacity), 0, at) && Within(WantedAt(before, [], 0, capacity), 0, at)
      && Within(First(KeptAt(tokens, [], at, capacity)), at, at + |Content(tokens)|)
      && Within(WantedAt(tokens, behind, at, capacity), at, at + |Content(tokens)|)
  {
    var before := Appended(earlier);
    var at, behind := |Content(before)|, LineAfter(before, []);
    TailWithin(earlier, capacity);
    WantedWithin(before, [], 0, capacity);
    KeptWithin(tokens, [], at, capacity);
    WantedWithin(tokens, behind, at, capacity);
  }

  /** For every way the file was appended to, read and reopened: exactly the lines that fit get
      through, each once and in order, if and only if every opening arrives right. */
  lemma {:induction false} TailDeliversLinesExactly(openings: seq<seq<Token>>, capacity: nat)
    requires capacity > 0
    ensures TailAt(openings, capacity) == WantedAt(Appended(openings), [], 0, capacity)
      <==> AllArriveRight(openings, capacity)
  {
    if openings != [] {
      TailDeliversLinesExactly(openings[..|openings| - 1], capacity);
      LastOpeningExactly(openings, capacity);
    }
  }

  /** Then in particular the relay hands on the wanted lines themselves. */
  lemma TailIsWanted(openings: seq<seq<Token>>, capacity: nat)
    requires capacity > 0 && AllArriveRight(openings, capacity)
    ensures Tail(openings, capacity) == Wanted(Appended(openings), capacity)
  {
    TailDeliversLinesExactly(openings, capacity);
    TailAtIsTail(openings, capacity);
    WantedAtIsWanted(Appended(openings), [], 0, capacity);
    assert [] + Content(Appended(openings)) == Content(Appended(openings));
  }
}
