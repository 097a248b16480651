/** From lines to the relay's output: the envelope around a line, the bounded channel that
    file and socket readers share, and the one writer at its end. */
module RelayOutput {
  import opened Outcomes
  import opened Text
  import opened JsonText

  const CHANNEL_CAPACITY: nat := 128
  const HEAD: string := "{\"schema_version\":1,\"audit_source\":\""
  const AFTER_SOURCE: string := ",\"log\":\""

  predicate KnownSource(source: string) {
    source == "socket" || source == "file"
  }

  /** One line of output without its newline; characters are escaped for HTML as well. */
  function Envelope(source: string, line: string): string {
    HEAD + source + ([QUOTE] + AFTER_SOURCE) + Escape(line, HtmlSafe) + ([QUOTE] + "}")
  }

  /** What a line becomes, unless its source is unknown or it is not JSON. */
  function EnvelopeOf(line: string, source: string, isJson: string -> bool): Option<string> {
    if KnownSource(source) && isJson(line) then Some(Envelope(source, line)) else None
  }

  datatype Pipe = Pipe(channel: seq<string>, output: string)

  function Send(pipe: Pipe, record: string): Pipe
    requires |pipe.channel| < CHANNEL_CAPACITY
  {
    pipe.(channel := pipe.channel + [record])
  }

  function WriteNext(pipe: Pipe): Pipe
    requires pipe.channel != []
  {
    Pipe(pipe.channel[1..], pipe.output + pipe.channel[0] + "\n")
  }

  class Relay {
    var channel: seq<string>
    var output: string

    ghost function View(): Pipe
      reads this
    {
      Pipe(channel, output)
    }

    constructor ()
      ensures View() == Pipe([], "")
    {
      channel, output := [], "";
    }

    /** Puts the line's envelope on the channel; a full channel makes the caller wait. */
    method EmitRecord(line: string, source: string, isJson: string -> bool) returns (waits: bool)
      modifies this
      ensures var record := EnvelopeOf(line, source, isJson);
        && (waits <==> record.Some? && old(|channel|) >= CHANNEL_CAPACITY)
        && View() == if record.Some? && !waits then Send(old(View()), record.value) else old(View())
      ensures var goes := (source == "file" || source == "socket") && isJson(line);
        && (waits <==> goes && old(|channel|) >= 128)
        && output == old(output)
        && channel == old(channel) + if !goes || waits then [] else
             ["{\"schema_version\":1,\"audit_source\":\"" + source + "\",\"log\":\"" + Escape(line, HtmlSafe) + "\"}"]
    {
      if source != "socket" && source != "file" {
        return false;
      }
      if !isJson(line) {
        return false;
      }
      var encoded := HEAD + source + ([QUOTE] + AFTER_SOURCE) + Escape(line, HtmlSafe) + ([QUOTE] + "}");
      assert [QUOTE] + AFTER_SOURCE == "\",\"log\":\"" && [QUOTE] + "}" == "\"}";
      if |channel| >= CHANNEL_CAPACITY {
        return true;
      }
      channel := channel + [encoded];
      return false;
    }

    /** One turn of the writer. */
    method WriteRecord()
      requires channel != []
      modifies this
      ensures View() == WriteNext(old(View()))
      ensures old(channel) == [old(channel[0])] + channel && output == old(output) + old(channel[0]) + "\n"
    {
      var record := channel[0];
      channel := channel[1..];
      output := output + (record + "\n");
      assert old(output) + (record + "\n") == old(output) + record + "\n";
    }
  }

  // ---- Reading an envelope back

  /** The string literal whose opening quote ends the given head. */
  function ReadAfter(t: string, head: string): Option<(string, string)> {
    if head <= t then ReadString(t[|head|..]) else None
  }

  /** The source and the log field; reading the source also reads the quote after it. */
  function ReadEnvelope(t: string): Option<(string, string)> {
    match ReadAfter(t, HEAD)
    case None => None
    case Some((source, rest)) =>
      match ReadAfter(rest, AFTER_SOURCE)
      case Some((line, end)) => if end == "}" then Some((source, line)) else None
      case None => None
  }

  lemma ReadAfterHead(head: string, s: string, rest: string)
    ensures ReadAfter(head + Escape(s, HtmlSafe) + [QUOTE] + rest, head) == Some((s, rest))
  {
    var t := head + Escape(s, HtmlSafe) + [QUOTE] + rest;
    ReadEscaped(s, HtmlSafe, rest);
    assert t[|head|..] == Escape(s, HtmlSafe) + [QUOTE] + rest;
  }

  lemma Regroup(head: string, source: string, after: string, log: string, end: string)
    ensures head + source + ([QUOTE] + after) + log + ([QUOTE] + end)
         == head + source + [QUOTE] + (after + log + [QUOTE] + end)
  {
  }

  /** Every envelope says where its line came from and what the line was, exactly. */
  lemma EnvelopeReadsBack(source: string, line: string)
    requires KnownSource(source)
    ensures ReadEnvelope(Envelope(source, line)) == Some((source, line))
  {
    var log := Escape(line, HtmlSafe);
    var rest := AFTER_SOURCE + log + [QUOTE] + "}";
    SourceNeedsNoEscape(source);
    ReadAfterHead(HEAD, source, rest);
    ReadAfterHead(AFTER_SOURCE, line, "}");
    Regroup(HEAD, source, AFTER_SOURCE, log, "}");
  }

  lemma SourceNeedsNoEscape(source: string)
    requires KnownSource(source)
    ensures Escape(source, HtmlSafe) == source
  {
    if source == "file" {
      PlainWord(source);
    } else {
      PlainWord(source);
    }
  }

  lemma {:induction false} PlainWord(s: string)
    requires forall i :: 0 <= i < |s| ==> 'a' <= s[i] <= 'z'
    ensures Escape(s, HtmlSafe) == s
  {
    if s != "" {
      PlainWord(s[1..]);
      assert [s[0]] + s[1..] == s;
    }
  }

  lemma EnvelopeIsOneLine(source: string, line: string)
    requires KnownSource(source)
    ensures Free(Envelope(source, line), '\n')
  {
    EscapedIsOneLine(line, HtmlSafe);
    assert Free(HEAD, '\n') && Free([QUOTE] + AFTER_SOURCE, '\n') && Free(source, '\n') && Free([QUOTE] + "}", '\n');
  }
}
