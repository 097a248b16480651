/** Following a growing file: the loop with its discard mode, what it hands on, and what
    reopening the file at its end makes of it. The loop returns after the first line it
    hands on, so the file's lines get through only as far as they arrive one by one. */
module LineFollower {
  import opened BufferedReading

  // The buffer, and so the longest line with its newline.
  const MAX_RECORD_BYTES: nat := 1_048_576

  /** What one run of the loop hands on, slice by slice. */
  function Follow(tokens: seq<Token>, capacity: nat): seq<Bytes>
    requires capacity > 0
    decreases |tokens|
  {
    if tokens == [] then []
    else
      SliceConsumes(tokens, capacity);
      var c := Slice(tokens, capacity);
      match c.end
      case BufferFull => Follow(Discard(c.rest, capacity), capacity)
      case Complete => [c.line[..|c.line| - 1]]
      case EndOfInput => Follow(c.rest, capacity)
      case Failed => []
  }

  /** Past the rest of an oversize line, or to whatever else ends it. */
  function Discard(tokens: seq<Token>, capacity: nat): (rest: seq<Token>)
    requires capacity > 0
    ensures |rest| <= |tokens|
    decreases |tokens|
  {
    SliceConsumes(tokens, capacity);
    var c := Slice(tokens, capacity);
    if c.end == BufferFull then Discard(c.rest, capacity) else c.rest
  }

  method FollowFile(reader: BufferedReader) returns (records: seq<Bytes>)
    requires reader.Valid()
    modifies reader
    ensures records == Follow(old(reader.Unread()), reader.capacity)
  {
    records := [];
    ghost var all := reader.Unread();
    while true
      invariant reader.Valid() && records == []
      invariant Follow(all, reader.capacity) == Follow(reader.Unread(), reader.capacity)
      decreases |reader.Unread()|
    {
      SliceConsumes(reader.Unread(), reader.capacity);
      var line, end := reader.ReadSlice();
      if end == BufferFull {
        DiscardLine(reader);
        continue;
      }
      if |line| > 0 && end == Complete {
        records := records + [line[..|line| - 1]];
      }
      if end == EndOfInput {
        continue;
      }
      return;
    }
  }

  method DiscardLine(reader: BufferedReader)
    requires reader.Valid()
    modifies reader
    ensures reader.Valid() && reader.Unread() == Discard(old(reader.Unread()), reader.capacity)
  {
    var end := BufferFull;
    ghost var all := reader.Unread();
    while end == BufferFull
      invariant reader.Valid()
      invariant if end == BufferFull then Discard(all, reader.capacity) == Discard(reader.Unread(), reader.capacity)
                else reader.Unread() == Discard(all, reader.capacity)
      decreases end == BufferFull, |reader.Unread()|
    {
      SliceConsumes(reader.Unread(), reader.capacity);
      var line;
      line, end := reader.ReadSlice();
    }
  }

  // ---- Record by record instead of slice by slice

  /** The records between newlines, ends and failures: one that a newline ends and that
      fits is kept, a failure stops everything unless it ends an oversize one. */
  function Kept(tokens: seq<Token>, record: Bytes, capacity: nat): seq<Bytes> {
    if tokens == [] then []
    else
      match tokens[0]
      case Eof => Kept(tokens[1..], [], capacity)
      case Fault => if |record| < capacity then [] else Kept(tokens[1..], [], capacity)
      case Data(b) =>
        if b != NEWLINE then Kept(tokens[1..], record + [b], capacity)
        else (if |record| < capacity then [record] else []) + Kept(tokens[1..], [], capacity)
  }

  function First<T>(s: seq<T>): seq<T> {
    if s == [] then [] else [s[0]]
  }

  lemma {:induction false} SliceOfKept(tokens: seq<Token>, record: Bytes, capacity: nat)
    requires |record| <= capacity
    ensures var c := Slice(tokens, capacity - |record|);
      match c.end
      case BufferFull =>
        |record + c.line| == capacity && Kept(tokens, record, capacity) == Kept(c.rest, record + c.line, capacity)
      case Complete =>
        && |c.line| > 0
        && Kept(tokens, record, capacity) == [record + c.line[..|c.line| - 1]] + Kept(c.rest, [], capacity)
      case EndOfInput => Kept(tokens, record, capacity) == Kept(c.rest, [], capacity)
      case Failed => Kept(tokens, record, capacity) == []
    decreases |tokens|
  {
    if |record| == capacity {
      assert record + [] == record;
    } else if tokens != [] && tokens[0].Data? {
      var b := tokens[0].b;
      if b == NEWLINE {
        assert record + [b][..0] == record;
      } else {
        SliceOfKept(tokens[1..], record + [b], capacity);
        var c := Slice(tokens[1..], capacity - |record| - 1);
        assert record + ([b] + c.line) == (record + [b]) + c.line;
        if c.end == Complete {
          assert record + ([b] + c.line)[..|c.line|] == (record + [b]) + c.line[..|c.line| - 1];
        }
      }
    }
  }

  /** In the discard mode a slice is part of an oversize record, or its end. */
  lemma {:induction false} SliceOfOversize(tokens: seq<Token>, record: Bytes, capacity: nat, room: nat)
    requires |record| >= capacity
    ensures var c := Slice(tokens, room);
      Kept(tokens, record, capacity)
      == if c.end == BufferFull then Kept(c.rest, record + c.line, capacity) else Kept(c.rest, [], capacity)
    decreases |tokens|
  {
    if room == 0 {
      assert record + [] == record;
    } else if tokens != [] && tokens[0].Data? && tokens[0].b != NEWLINE {
      var b := tokens[0].b;
      SliceOfOversize(tokens[1..], record + [b], capacity, room - 1);
      assert record + ([b] + Slice(tokens[1..], room - 1).line) == (record + [b]) + Slice(tokens[1..], room - 1).line;
    }
  }

  lemma {:induction false} DiscardSkipsOversize(tokens: seq<Token>, record: Bytes, capacity: nat)
    requires 0 < capacity <= |record|
    ensures Kept(tokens, record, capacity) == Kept(Discard(tokens, capacity), [], capacity)
    decreases |tokens|
  {
    SliceConsumes(tokens, capacity);
    SliceOfOversize(tokens, record, capacity, capacity);
    var c := Slice(tokens, capacity);
    if c.end == BufferFull {
      DiscardSkipsOversize(c.rest, record + c.line, capacity);
    }
  }

  /** One run of the loop hands on the first record that is kept, and no other. */
  lemma {:induction false} FollowHandsOnTheFirst(tokens: seq<Token>, capacity: nat)
    requires capacity > 0
    ensures Follow(tokens, capacity) == First(Kept(tokens, [], capacity))
    decreases |tokens|
  {
    if tokens != [] {
      SliceConsumes(tokens, capacity);
      SliceOfKept(tokens, [], capacity);
      var c := Slice(tokens, capacity);
      match c.end
      case BufferFull =>
        assert [] + c.line == c.line;
        DiscardSkipsOversize(c.rest, c.line, capacity);
        FollowHandsOnTheFirst(Discard(c.rest, capacity), capacity);
      case Complete =>
        assert [] + c.line[..|c.line| - 1] == c.line[..|c.line| - 1];
      case EndOfInput =>
        FollowHandsOnTheFirst(c.rest, capacity);
      case Failed =>
    }
  }
}
