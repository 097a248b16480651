/** From bytes appended to the audit file to lines of the relay's output. How a line's bytes
    become text is a parameter. */
module RelayedFile {
  import opened Outcomes
  import opened Text
  import opened BufferedReading
  import opened LineFollower
  import opened RelayedLines
  import opened RelayedExactly
  import opened RelayOutput
  import opened RelayRuns

  type Decode = Bytes -> string

  function Decoded(lines: seq<Bytes>, decode: Decode): seq<string> {
    seq(|lines|, i requires 0 <= i < |lines| => decode(lines[i]))
  }

  function LogOf(line: string, source: string): seq<string> {
    match ReadEnvelope(line)
    case Some((s, log)) => if s == source then [log] else []
    case None => []
  }

  /** The logs of the output lines that name a source. */
  function LogsFrom(lines: seq<string>, source: string): seq<string> {
    if lines == [] then []
    else
      var n := |lines| - 1;
      LogsFrom(lines[..n], source) + LogOf(lines[n], source)
  }

  /** One producer follows the file; all others are socket connections. */
  ghost predicate FollowsFile(inputs: seq<Producer>, p: nat) {
    && p < |inputs| && inputs[p].source == "file"
    && forall q :: 0 <= q < |inputs| && q != p ==> inputs[q].source == "socket"
  }

  lemma LogOfItem(inputs: seq<Producer>, item: Item, p: nat)
    requires FollowsFile(inputs, p) && KnownItem(inputs, item)
    ensures LogOf(RecordOf(inputs, item), "file") == if item.producer == p then [item.line] else []
  {
    EnvelopeReadsBack(inputs[item.producer].source, item.line);
    assert "socket"[0] != "file"[0];
  }

  lemma {:induction false} LogsAreItems(inputs: seq<Producer>, items: seq<Item>, p: nat)
    requires FollowsFile(inputs, p) && forall i :: 0 <= i < |items| ==> KnownItem(inputs, items[i])
    ensures LogsFrom(Records(inputs, items), "file") == OfProducer(items, p)
  {
    if items != [] {
      var n := |items| - 1;
      LogsAreItems(inputs, items[..n], p);
      assert Records(inputs, items)[..n] == Records(inputs, items[..n]);
      LogOfItem(inputs, items[n], p);
    }
  }

  lemma LogsOfTerminated(lines: seq<string>, source: string)
    ensures LogsFrom(lines + [""], source) == LogsFrom(lines, source)
  {
    assert (lines + [""])[..|lines|] == lines;
    assert ReadEnvelope("") == None;
  }

  /** The records the writer has written are those the output splits into. */
  lemma OutputSplits(inputs: seq<Producer>, isJson: IsJson, steps: seq<Step>)
    ensures var w := Run(inputs, isJson, steps);
      && 0 <= Written(w) <= |w.sent|
      && (forall i :: 0 <= i < |w.sent| ==> KnownItem(inputs, w.sent[i]))
      && Split(w.pipe.output, '\n') == Records(inputs, w.sent[..Written(w)]) + [""]
  {
    RunsKeepInvariants(inputs, isJson, steps);
    var w := Run(inputs, isJson, steps);
    RecordsReadBack(inputs, w.sent[..Written(w)]);
    SplitUnlines(Records(inputs, w.sent[..Written(w)]), '\n');
  }

  lemma LogsAreWritten(inputs: seq<Producer>, isJson: IsJson, steps: seq<Step>, p: nat)
    requires FollowsFile(inputs, p)
    ensures var w := Run(inputs, isJson, steps);
      && 0 <= Written(w) <= |w.sent|
      && LogsFrom(Split(w.pipe.output, '\n'), "file") == OfProducer(w.sent[..Written(w)], p)
  {
    OutputSplits(inputs, isJson, steps);
    var w := Run(inputs, isJson, steps);
    var written := w.sent[..Written(w)];
    LogsOfTerminated(Records(inputs, written), "file");
    LogsAreItems(inputs, written, p);
  }

  /** What the output logs from the file, in any interleaving with any socket connections, is a
      prefix of the JSON lines that following it handed on; and once everything is through, and
      every opening arrived right, it is exactly the JSON lines of the file that fit. */
  lemma FileReachesOutput(openings: seq<seq<Token>>, decode: Decode, inputs: seq<Producer>, p: nat,
                          isJson: IsJson, steps: seq<Step>)
    requires FollowsFile(inputs, p) && inputs[p].lines == Decoded(Tail(openings, MAX_RECORD_BYTES), decode)
    ensures var w := Run(inputs, isJson, steps);
      var logs := LogsFrom(Split(w.pipe.output, '\n'), "file");
      && w.next[p] <= |inputs[p].lines|
      && logs <= JsonLines(inputs[p].lines[..w.next[p]], isJson)
      && (w.pipe.channel == [] && w.next[p] == |inputs[p].lines| && AllArriveRight(openings, 1_048_576) ==>
            logs == JsonLines(Decoded(Wanted(Appended(openings), 1_048_576), decode), isJson))
  {
    LogsAreWritten(inputs, isJson, steps, p);
    EachReaderKeepsItsOrder(inputs, isJson, steps, p);
    if AllArriveRight(openings, MAX_RECORD_BYTES) {
      TailIsWanted(openings, MAX_RECORD_BYTES);
      assert inputs[p].lines[..|inputs[p].lines|] == inputs[p].lines;
    }
  }
}
