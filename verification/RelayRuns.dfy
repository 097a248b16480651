/** Every interleaving of the relay's readers and its writer: the output is a sequence of
    whole envelopes, each reader's lines appear in its own order, and none is lost. */
module RelayRuns {
  import opened Outcomes
  import opened Text
  import opened RelayOutput

  /** A reader and the lines it has for the relay, in order. */
  datatype Producer = Producer(source: string, lines: seq<string>)

  /** A line that went into the channel, and whose it was. */
  datatype Item = Item(producer: nat, line: string)

  datatype World = World(pipe: Pipe, next: seq<nat>, sent: seq<Item>)

  datatype Step = Emit(producer: nat) | Write

  type IsJson = string -> bool

  function Init(inputs: seq<Producer>): World {
    World(Pipe([], ""), seq(|inputs|, i => 0), [])
  }

  function Next(inputs: seq<Producer>, isJson: IsJson, w: World, step: Step): World
    requires |w.next| == |inputs|
  {
    match step
    case Write => if w.pipe.channel == [] then w else w.(pipe := WriteNext(w.pipe))
    case Emit(p) =>
      if p >= |inputs| || w.next[p] >= |inputs[p].lines| then w
      else
        var line := inputs[p].lines[w.next[p]];
        var after := w.next[p := w.next[p] + 1];
        match EnvelopeOf(line, inputs[p].source, isJson)
        case None => w.(next := after)
        case Some(record) =>
          if |w.pipe.channel| >= CHANNEL_CAPACITY then w
          else World(Send(w.pipe, record), after, w.sent + [Item(p, line)])
  }

  function Run(inputs: seq<Producer>, isJson: IsJson, steps: seq<Step>): (w: World)
    ensures |w.next| == |inputs|
  {
    if steps == [] then Init(inputs)
    else Next(inputs, isJson, Run(inputs, isJson, steps[..|steps| - 1]), steps[|steps| - 1])
  }

  function RecordOf(inputs: seq<Producer>, item: Item): string {
    if item.producer < |inputs| then Envelope(inputs[item.producer].source, item.line) else ""
  }

  function Records(inputs: seq<Producer>, items: seq<Item>): (r: seq<string>)
    ensures |r| == |items|
  {
    seq(|items|, i requires 0 <= i < |items| => RecordOf(inputs, items[i]))
  }

  /** One producer's lines among the items. */
  function OfProducer(items: seq<Item>, p: nat): seq<string> {
    if items == [] then []
    else
      var n := |items| - 1;
      OfProducer(items[..n], p) + (if items[n].producer == p then [items[n].line] else [])
  }

  /** The lines that become envelopes. */
  function Accepted(lines: seq<string>, source: string, isJson: IsJson): seq<string> {
    if lines == [] then []
    else
      var n := |lines| - 1;
      Accepted(lines[..n], source, isJson)
      + (if EnvelopeOf(lines[n], source, isJson).Some? then [lines[n]] else [])
  }

  /** The lines that are JSON, in order. */
  function JsonLines(lines: seq<string>, isJson: IsJson): seq<string> {
    if lines == [] then []
    else
      var n := |lines| - 1;
      JsonLines(lines[..n], isJson) + (if isJson(lines[n]) then [lines[n]] else [])
  }

  /** Exactly which lines become envelopes: of a known source the JSON ones, of any other none. */
  lemma {:induction false} AcceptedExactly(lines: seq<string>, source: string, isJson: IsJson)
    ensures Accepted(lines, source, isJson)
      == if source == "file" || source == "socket" then JsonLines(lines, isJson) else []
  {
    if lines != [] {
      AcceptedExactly(lines[..|lines| - 1], source, isJson);
    }
  }

  /** How many of the sent items the writer has written. */
  function Written(w: World): int {
    |w.sent| - |w.pipe.channel|
  }

  ghost predicate PipeInv(inputs: seq<Producer>, w: World) {
    && |w.pipe.channel| <= CHANNEL_CAPACITY
    && 0 <= Written(w) <= |w.sent|
    && w.pipe.channel == Records(inputs, w.sent[Written(w)..])
    && w.pipe.output == Unlines(Records(inputs, w.sent[..Written(w)]), '\n')
  }

  ghost predicate KnownItem(inputs: seq<Producer>, item: Item) {
    item.producer < |inputs| && KnownSource(inputs[item.producer].source)
  }

  ghost predicate OrderInv(inputs: seq<Producer>, isJson: IsJson, w: World) {
    && |w.next| == |inputs|
    && (forall i :: 0 <= i < |w.sent| ==> KnownItem(inputs, w.sent[i]))
    && (forall p :: 0 <= p < |inputs| ==> InOrder(inputs[p], isJson, w.next[p], OfProducer(w.sent, p)))
  }

  ghost predicate InOrder(producer: Producer, isJson: IsJson, next: nat, sent: seq<string>) {
    next <= |producer.lines| && sent == Accepted(producer.lines[..next], producer.source, isJson)
  }

  lemma EmitKeepsPipe(inputs: seq<Producer>, isJson: IsJson, w: World, p: nat)
    requires |w.next| == |inputs| && PipeInv(inputs, w)
    ensures PipeInv(inputs, Next(inputs, isJson, w, Emit(p)))
  {
    var after := Next(inputs, isJson, w, Emit(p));
    if after.sent != w.sent {
      var k, item := Written(w), after.sent[|w.sent|];
      assert after.sent[k..] == w.sent[k..] + [item] && after.sent[..k] == w.sent[..k];
      assert Records(inputs, after.sent[k..]) == Records(inputs, w.sent[k..]) + [RecordOf(inputs, item)];
    }
  }

  lemma WriteKeepsPipe(inputs: seq<Producer>, isJson: IsJson, w: World)
    requires |w.next| == |inputs| && PipeInv(inputs, w)
    ensures PipeInv(inputs, Next(inputs, isJson, w, Write))
  {
    if w.pipe.channel != [] {
      var k := Written(w);
      var record := w.pipe.channel[0];
      assert w.sent[k..][1..] == w.sent[k + 1..];
      assert Records(inputs, w.sent[k..])[1..] == Records(inputs, w.sent[k + 1..]);
      assert Records(inputs, w.sent[..k + 1]) == Records(inputs, w.sent[..k]) + [record];
      UnlinesAppend(Records(inputs, w.sent[..k]), record, '\n');
    }
  }

  lemma OneMoreAccepted(producer: Producer, isJson: IsJson, n: nat)
    requires n < |producer.lines|
    ensures Accepted(producer.lines[..n + 1], producer.source, isJson)
      == Accepted(producer.lines[..n], producer.source, isJson)
         + (if EnvelopeOf(producer.lines[n], producer.source, isJson).Some? then [producer.lines[n]] else [])
  {
    assert producer.lines[..n + 1][..n] == producer.lines[..n];
  }

  lemma OneMoreSent(items: seq<Item>, item: Item, q: nat)
    ensures OfProducer(items + [item], q) == OfProducer(items, q) + (if item.producer == q then [item.line] else [])
  {
    assert (items + [item])[..|items|] == items;
  }

  /** Emitting moves one producer on; what it sent stays what it accepted. */
  lemma EmitKeepsOrderOf(inputs: seq<Producer>, isJson: IsJson, w: World, p: nat, q: nat)
    requires |w.next| == |inputs| && q < |inputs| && p < |inputs|
    requires InOrder(inputs[q], isJson, w.next[q], OfProducer(w.sent, q))
    ensures var after := Next(inputs, isJson, w, Emit(p));
      InOrder(inputs[q], isJson, after.next[q], OfProducer(after.sent, q))
  {
    if w.next[p] < |inputs[p].lines| {
      OneMoreAccepted(inputs[p], isJson, w.next[p]);
      OneMoreSent(w.sent, Item(p, inputs[p].lines[w.next[p]]), q);
    }
  }

  lemma EmitSendsKnown(inputs: seq<Producer>, isJson: IsJson, w: World, p: nat)
    requires |w.next| == |inputs| && forall i :: 0 <= i < |w.sent| ==> KnownItem(inputs, w.sent[i])
    ensures var after := Next(inputs, isJson, w, Emit(p));
      forall i :: 0 <= i < |after.sent| ==> KnownItem(inputs, after.sent[i])
  {
  }

  lemma StepKeepsOrder(inputs: seq<Producer>, isJson: IsJson, w: World, step: Step)
    requires OrderInv(inputs, isJson, w)
    ensures OrderInv(inputs, isJson, Next(inputs, isJson, w, step))
  {
    if step.Emit? && step.producer < |inputs| {
      EmitSendsKnown(inputs, isJson, w, step.producer);
      forall q | 0 <= q < |inputs|
        ensures var after := Next(inputs, isJson, w, step);
          InOrder(inputs[q], isJson, after.next[q], OfProducer(after.sent, q))
      {
        EmitKeepsOrderOf(inputs, isJson, w, step.producer, q);
      }
    }
  }

  lemma {:induction false} RunsKeepInvariants(inputs: seq<Producer>, isJson: IsJson, steps: seq<Step>)
    ensures PipeInv(inputs, Run(inputs, isJson, steps))
    ensures OrderInv(inputs, isJson, Run(inputs, isJson, steps))
  {
    if steps == [] {
      forall p | 0 <= p < |inputs| ensures InOrder(inputs[p], isJson, 0, []) {
        assert inputs[p].lines[..0] == [];
      }
    } else {
      var n := |steps| - 1;
      RunsKeepInvariants(inputs, isJson, steps[..n]);
      var w := Run(inputs, isJson, steps[..n]);
      StepKeepsOrder(inputs, isJson, w, steps[n]);
      if steps[n].Emit? {
        EmitKeepsPipe(inputs, isJson, w, steps[n].producer);
      } else {
        WriteKeepsPipe(inputs, isJson, w);
      }
    }
  }

  /** The output splits into exactly the envelopes written, and each gives back its
      reader's source and its line. */
  lemma OutputIsTheEnvelopes(inputs: seq<Producer>, isJson: IsJson, steps: seq<Step>)
    ensures var w := Run(inputs, isJson, steps);
      var lines := Split(w.pipe.output, '\n');
      && |lines| == Written(w) + 1 && lines[Written(w)] == ""
      && forall i :: 0 <= i < Written(w) ==>
           w.sent[i].producer < |inputs|
           && ReadEnvelope(lines[i]) == Some((inputs[w.sent[i].producer].source, w.sent[i].line))
  {
    RunsKeepInvariants(inputs, isJson, steps);
    var w := Run(inputs, isJson, steps);
    RecordsReadBack(inputs, w.sent[..Written(w)]);
    SplitUnlines(Records(inputs, w.sent[..Written(w)]), '\n');
  }

  /** Records of known items are single lines and read back. */
  lemma RecordsReadBack(inputs: seq<Producer>, items: seq<Item>)
    requires forall i :: 0 <= i < |items| ==> KnownItem(inputs, items[i])
    ensures AllFree(Records(inputs, items), '\n')
    ensures forall i :: 0 <= i < |items| ==>
      KnownItem(inputs, items[i])
      && ReadEnvelope(Records(inputs, items)[i]) == Some((inputs[items[i].producer].source, items[i].line))
  {
    forall i | 0 <= i < |items|
      ensures Free(Records(inputs, items)[i], '\n') && KnownItem(inputs, items[i])
      ensures ReadEnvelope(Records(inputs, items)[i]) == Some((inputs[items[i].producer].source, items[i].line))
    {
      assert KnownItem(inputs, items[i]);
      EnvelopeIsOneLine(inputs[items[i].producer].source, items[i].line);
      EnvelopeReadsBack(inputs[items[i].producer].source, items[i].line);
    }
  }

  lemma {:induction false} PrefixOfProducer(items: seq<Item>, k: nat, p: nat)
    requires k <= |items|
    ensures OfProducer(items[..k], p) <= OfProducer(items, p)
    decreases |items|
  {
    if k < |items| {
      assert items[..|items| - 1][..k] == items[..k];
      PrefixOfProducer(items[..|items| - 1], k, p);
    } else {
      assert items[..k] == items;
    }
  }

  /** What is written of one reader's lines is a prefix, in its order, of those it has
      emitted that are JSON; once the channel is empty it is all of them. */
  lemma EachReaderKeepsItsOrder(inputs: seq<Producer>, isJson: IsJson, steps: seq<Step>, p: nat)
    requires p < |inputs|
    ensures var w := Run(inputs, isJson, steps);
      && 0 <= Written(w) <= |w.sent|
      && w.next[p] <= |inputs[p].lines|
      && var known := inputs[p].source == "file" || inputs[p].source == "socket";
         var emitted := if known then JsonLines(inputs[p].lines[..w.next[p]], isJson) else [];
         OfProducer(w.sent[..Written(w)], p) <= emitted
         && (w.pipe.channel == [] ==> OfProducer(w.sent[..Written(w)], p) == emitted)
  {
    RunsKeepInvariants(inputs, isJson, steps);
    var w := Run(inputs, isJson, steps);
    PrefixOfProducer(w.sent, Written(w), p);
    AcceptedExactly(inputs[p].lines[..w.next[p]], inputs[p].source, isJson);
    assert InOrder(inputs[p], isJson, w.next[p], OfProducer(w.sent, p));
    assert w.pipe.channel == [] ==> w.sent[..Written(w)] == w.sent;
  }

  // ---- Nothing is held up for good

  lemma OneMoreStep(inputs: seq<Producer>, isJson: IsJson, steps: seq<Step>, step: Step)
    ensures Run(inputs, isJson, steps + [step]) == Next(inputs, isJson, Run(inputs, isJson, steps), step)
  {
    assert (steps + [step])[..|steps|] == steps;
  }

  lemma {:induction false} ChannelIsEmptied(inputs: seq<Producer>, isJson: IsJson, steps: seq<Step>)
    returns (more: seq<Step>)
    ensures steps <= more && Run(inputs, isJson, more).pipe.channel == []
    ensures Run(inputs, isJson, more).next == Run(inputs, isJson, steps).next
    decreases |Run(inputs, isJson, steps).pipe.channel|
  {
    more := steps;
    if Run(inputs, isJson, steps).pipe.channel != [] {
      OneMoreStep(inputs, isJson, steps, Write);
      more := ChannelIsEmptied(inputs, isJson, steps + [Write]);
    }
  }

  lemma OneLineGetsThrough(inputs: seq<Producer>, isJson: IsJson, steps: seq<Step>, p: nat) returns (more: seq<Step>)
    requires p < |inputs| && Run(inputs, isJson, steps).next[p] < |inputs[p].lines|
    ensures var w, after := Run(inputs, isJson, steps), Run(inputs, isJson, more);
      steps <= more && after.next == w.next[p := w.next[p] + 1]
  {
    more := ChannelIsEmptied(inputs, isJson, steps);
    OneMoreStep(inputs, isJson, more, Emit(p));
    more := more + [Emit(p)];
  }

  lemma {:induction false} ReaderGetsThrough(inputs: seq<Producer>, isJson: IsJson, steps: seq<Step>, p: nat)
    returns (more: seq<Step>)
    requires p < |inputs| && Run(inputs, isJson, steps).next[p] <= |inputs[p].lines|
    ensures steps <= more
    ensures Run(inputs, isJson, more).next == Run(inputs, isJson, steps).next[p := |inputs[p].lines|]
    decreases |inputs[p].lines| - Run(inputs, isJson, steps).next[p]
  {
    more := steps;
    if Run(inputs, isJson, steps).next[p] < |inputs[p].lines| {
      var next := OneLineGetsThrough(inputs, isJson, steps, p);
      more := ReaderGetsThrough(inputs, isJson, next, p);
    }
  }

  lemma {:induction false} ReadersGetThrough(inputs: seq<Producer>, isJson: IsJson, steps: seq<Step>, n: nat)
    returns (more: seq<Step>)
    requires n <= |inputs|
    ensures steps <= more && forall p :: 0 <= p < n ==> Run(inputs, isJson, more).next[p] == |inputs[p].lines|
  {
    more := steps;
    if n > 0 {
      more := ReadersGetThrough(inputs, isJson, steps, n - 1);
      RunsKeepInvariants(inputs, isJson, more);
      assert InOrder(inputs[n - 1], isJson, Run(inputs, isJson, more).next[n - 1],
                     OfProducer(Run(inputs, isJson, more).sent, n - 1));
      more := ReaderGetsThrough(inputs, isJson, more, n - 1);
    }
  }

  /** Whatever has happened so far, the run can go on until every reader has emitted all its lines and
      the channel is empty; so no full channel holds anything up for good. */
  lemma EverythingGetsThrough(inputs: seq<Producer>, isJson: IsJson, steps: seq<Step>) returns (more: seq<Step>)
    ensures steps <= more && Run(inputs, isJson, more).pipe.channel == []
    ensures forall p :: 0 <= p < |inputs| ==> Run(inputs, isJson, more).next[p] == |inputs[p].lines|
  {
    var all := ReadersGetThrough(inputs, isJson, steps, |inputs|);
    more := ChannelIsEmptied(inputs, isJson, all);
  }
}
