/** The bounded buffered reader. What a read of the file returns is an arbitrary chunk, the
    end of what is there so far, or a failure; the slices handed out depend only on the
    bytes and on where between them an end was met, not on the chunks. */
module BufferedReading {
  import opened Text

  newtype Byte = x: int | 0 <= x < 256

  const NEWLINE: Byte := 10

  type Bytes = seq<Byte>

  /** A non-empty chunk, the end of the file as it is now, or a failing read. */
  datatype Event = Chunk(first: Byte, more: Bytes) | EndOfFile | Broken

  datatype Token = Data(b: Byte) | Eof | Fault

  datatype LineEnd = Complete | BufferFull | EndOfInput | Failed

  datatype Cut = Cut(line: Bytes, end: LineEnd, rest: seq<Token>)

  function AsData(s: Bytes): (tokens: seq<Token>)
    ensures |tokens| == |s|
  {
    seq(|s|, i requires 0 <= i < |s| => Data(s[i]))
  }

  function Tokens(events: seq<Event>): seq<Token> {
    if events == [] then []
    else
      (match events[0]
       case Chunk(first, more) => AsData([first] + more)
       case EndOfFile => [Eof]
       case Broken => [Fault]) + Tokens(events[1..])
  }

  /** What one read gives: the bytes of a chunk in order, an end, or a failure. */
  lemma TokensOfOne(first: Byte, more: Bytes)
    ensures Tokens([EndOfFile]) == [Eof] && Tokens([Broken]) == [Fault]
    ensures Tokens([Chunk(first, more)]) == [Data(first)] + seq(|more|, i requires 0 <= i < |more| => Data(more[i]))
  {
    assert Tokens([]) == [] && [Chunk(first, more)][1..] == [] && [EndOfFile][1..] == [] && [Broken][1..] == [];
    assert Tokens([Chunk(first, more)]) == AsData([first] + more);
  }

  /** Later reads follow earlier ones. */
  lemma {:induction false} TokensConcat(a: seq<Event>, b: seq<Event>)
    ensures Tokens(a + b) == Tokens(a) + Tokens(b)
  {
    if a == [] {
      assert a + b == b;
    } else {
      assert (a + b)[0] == a[0] && (a + b)[1..] == a[1..] + b;
      var one := Tokens(a)[..|Tokens(a)| - |Tokens(a[1..])|];
      TokensConcat(a[1..], b);
      Associative(one, Tokens(a[1..]), Tokens(b));
    }
  }

  /** The next line or fragment of at most `room` bytes; reading past the last token fails. */
  function Slice(tokens: seq<Token>, room: nat): Cut {
    if room == 0 then Cut([], BufferFull, tokens)
    else if tokens == [] then Cut([], Failed, [])
    else
      match tokens[0]
      case Eof => Cut([], EndOfInput, tokens[1..])
      case Fault => Cut([], Failed, tokens[1..])
      case Data(b) =>
        if b == NEWLINE then Cut([b], Complete, tokens[1..])
        else
          var c := Slice(tokens[1..], room - 1);
          Cut([b] + c.line, c.end, c.rest)
  }

  lemma {:induction false} SliceConsumes(tokens: seq<Token>, room: nat)
    ensures |Slice(tokens, room).rest| <= |tokens|
    ensures room > 0 && tokens != [] ==> |Slice(tokens, room).rest| < |tokens|
    ensures Slice(tokens, room).end == Complete ==>
      |Slice(tokens, room).line| > 0 && Slice(tokens, room).line[|Slice(tokens, room).line| - 1] == NEWLINE
  {
    if room > 0 && tokens != [] && tokens[0].Data? && tokens[0].b != NEWLINE {
      SliceConsumes(tokens[1..], room - 1);
    }
  }

  lemma {:induction false} SlicePastPrefix(prefix: Bytes, tokens: seq<Token>, room: nat)
    requires Free(prefix, NEWLINE) && |prefix| <= room
    ensures var c := Slice(tokens, room - |prefix|);
      Slice(AsData(prefix) + tokens, room) == Cut(prefix + c.line, c.end, c.rest)
  {
    if prefix == [] {
      assert AsData(prefix) + tokens == tokens;
    } else {
      var all := AsData(prefix) + tokens;
      assert all[1..] == AsData(prefix[1..]) + tokens;
      assert all[0] == Data(prefix[0]) && prefix[0] in prefix;
      SlicePastPrefix(prefix[1..], tokens, room - 1);
      assert prefix == [prefix[0]] + prefix[1..];
    }
  }

  datatype Pending = Nothing | AtEnd | Failure

  function PendingToken(p: Pending): seq<Token> {
    match p
    case Nothing => []
    case AtEnd => [Eof]
    case Failure => [Fault]
  }

  lemma SliceAtNewline(buffered: Bytes, i: nat, tokens: seq<Token>, room: nat)
    requires i < |buffered| <= room && buffered[i] == NEWLINE && Free(buffered[..i], NEWLINE)
    ensures Slice(AsData(buffered) + tokens, room)
         == Cut(buffered[..i + 1], Complete, AsData(buffered[i + 1..]) + tokens)
  {
    var rest := [Data(NEWLINE)] + (AsData(buffered[i + 1..]) + tokens);
    assert AsData(buffered) + tokens == AsData(buffered[..i]) + rest;
    SlicePastPrefix(buffered[..i], rest, room);
    assert rest[1..] == AsData(buffered[i + 1..]) + tokens;
    assert buffered[..i] + [NEWLINE] == buffered[..i + 1];
  }

  lemma SlicePastAll(buffered: Bytes, tokens: seq<Token>, room: nat)
    requires Free(buffered, NEWLINE) && |buffered| <= room
    ensures var c := Slice(tokens, room - |buffered|);
      Slice(AsData(buffered) + tokens, room) == Cut(buffered + c.line, c.end, c.rest)
    ensures |buffered| == room ==> Slice(AsData(buffered) + tokens, room) == Cut(buffered, BufferFull, tokens)
  {
    SlicePastPrefix(buffered, tokens, room);
    assert buffered + [] == buffered;
  }

  lemma SliceOfPending(p: Pending, tokens: seq<Token>, room: nat)
    requires p != Nothing && room > 0
    ensures Slice(PendingToken(p) + tokens, room) == Cut([], if p == AtEnd then EndOfInput else Failed, tokens)
  {
    assert (PendingToken(p) + tokens)[1..] == tokens;
  }

  /** Running out of events is a read that fails. */
  lemma EndFails(buffered: Bytes, room: nat)
    requires Free(buffered, NEWLINE) && |buffered| < room
    ensures Slice(AsData(buffered), room) == Slice(AsData(buffered) + [Fault], room)
  {
    assert AsData(buffered) + [] == AsData(buffered);
    SlicePastPrefix(buffered, [], room);
    SlicePastPrefix(buffered, [Fault], room);
  }

  /** The part of a chunk that did not fit. */
  function Left(bytes: Bytes, n: nat): seq<Event>
    requires n <= |bytes|
  {
    if n == |bytes| then [] else [Chunk(bytes[n], bytes[n + 1..])]
  }

  lemma TokensOfLeft(bytes: Bytes, n: nat, later: seq<Event>)
    requires n <= |bytes|
    ensures Tokens(Left(bytes, n) + later) == AsData(bytes[n..]) + Tokens(later)
  {
    if n == |bytes| {
      assert [] + later == later;
    } else {
      assert [bytes[n]] + bytes[n + 1..] == bytes[n..];
      assert (Left(bytes, n) + later)[1..] == later;
    }
  }

  /** Moving the front of a chunk into the buffer changes nothing that is still to be read. */
  lemma ChunkMoves(buffered: Bytes, first: Byte, more: Bytes, n: nat, later: seq<Event>)
    requires n <= |more| + 1
    ensures var bytes := [first] + more;
      && AsData(buffered + bytes[..n]) + Tokens(Left(bytes, n) + later)
         == AsData(buffered) + Tokens([Chunk(first, more)] + later)
      && |Tokens(Left(bytes, n) + later)| + n == |Tokens([Chunk(first, more)] + later)|
  {
    var bytes := [first] + more;
    TokensOfLeft(bytes, n, later);
    TokensOfLeft(bytes, 0, later);
    assert bytes[0..] == bytes;
    AsDataConcat(bytes[..n], bytes[n..]);
    assert bytes[..n] + bytes[n..] == bytes;
    AsDataConcat(buffered, bytes[..n]);
    Associative(AsData(buffered), AsData(bytes[..n]), AsData(bytes[n..]) + Tokens(later));
    Associative(AsData(bytes[..n]), AsData(bytes[n..]), Tokens(later));
  }

  lemma AsDataConcat(a: Bytes, b: Bytes)
    ensures AsData(a + b) == AsData(a) + AsData(b)
  {
  }

  /** The buffered reader: unread bytes, an error met after them, and the file. */
  class BufferedReader {
    const capacity: nat
    var buffered: Bytes
    var pending: Pending
    var source: seq<Event>

    ghost predicate Valid()
      reads this
    {
      0 < capacity && |buffered| <= capacity && (pending != Nothing ==> |buffered| < capacity)
    }

    /** What follows the buffered bytes. */
    ghost function Later(): seq<Token>
      reads this
    {
      PendingToken(pending) + Tokens(source)
    }

    ghost function Unread(): seq<Token>
      reads this
    {
      AsData(buffered) + Later()
    }

    constructor (events: seq<Event>, size: nat)
      requires size > 0
      ensures Valid() && capacity == size && Unread() == Tokens(events)
    {
      capacity, buffered, pending, source := size, [], Nothing, events;
      new;
      assert AsData([]) + ([] + Tokens(source)) == Tokens(source);
    }

    /** One read into the free space of the buffer. */
    method Fill()
      requires Valid() && pending == Nothing && |buffered| < capacity && Free(buffered, NEWLINE)
      modifies this
      ensures Valid()
      ensures Slice(Unread(), capacity) == old(Slice(Unread(), capacity))
      ensures pending == Nothing ==> |Tokens(source)| < |old(Tokens(source))|
      ensures pending != Nothing ==> |Tokens(source)| <= |old(Tokens(source))|
    {
      ghost var before := Unread();
      if source == [] {
        EndFails(buffered, capacity);
        pending := Failure;
        assert before == AsData(buffered) && Unread() == AsData(buffered) + [Fault];
        return;
      }
      assert source == [source[0]] + source[1..];
      assert before == AsData(buffered) + Tokens(source);
      match source[0]
      case EndOfFile =>
        pending, source := AtEnd, source[1..];
        assert Unread() == before;
      case Broken =>
        pending, source := Failure, source[1..];
        assert Unread() == before;
      case Chunk(first, more) =>
        var bytes := [first] + more;
        var n := if |bytes| <= capacity - |buffered| then |bytes| else capacity - |buffered|;
        ChunkMoves(buffered, first, more, n, source[1..]);
        buffered, source := buffered + bytes[..n], Left(bytes, n) + source[1..];
        assert PendingToken(pending) + Tokens(source) == Tokens(source);
    }

    method ReadSlice() returns (line: Bytes, end: LineEnd)
      requires Valid()
      modifies this
      ensures Valid()
      ensures Cut(line, end, Unread()) == old(Slice(Unread(), capacity))
    {
      while true
        invariant Valid()
        invariant Slice(Unread(), capacity) == old(Slice(Unread(), capacity))
        decreases |Tokens(source)| + (if pending == Nothing then 1 else 0)
      {
        ghost var later := Later();
        var i := IndexOf(buffered, NEWLINE);
        if i < |buffered| {
          SliceAtNewline(buffered, i, later, capacity);
          line, end, buffered := buffered[..i + 1], Complete, buffered[i + 1..];
          assert Later() == later;
          return;
        }
        SlicePastAll(buffered, later, capacity);
        if pending != Nothing {
          line, end := buffered, if pending == AtEnd then EndOfInput else Failed;
          SliceOfPending(pending, Tokens(source), capacity - |buffered|);
          buffered, pending := [], Nothing;
          assert Unread() == Tokens(source);
          return;
        }
        if |buffered| >= capacity {
          line, end, buffered := buffered, BufferFull, [];
          assert Unread() == later;
          return;
        }
        Fill();
      }
    }
  }

  /** The first position of a byte, or the length. */
  method IndexOf(s: Bytes, b: Byte) returns (i: nat)
    ensures i <= |s| && Free(s[..i], b)
    ensures i < |s| ==> s[i] == b
    ensures i == |s| ==> Free(s, b)
  {
    i := 0;
    while i < |s| && s[i] != b
      invariant i <= |s| && Free(s[..i], b)
    {
      i := i + 1;
    }
    assert s[..|s|] == s;
  }

}
