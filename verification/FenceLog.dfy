/** The log of a whole run of a fence: one readable line per reported connection. */
module FenceLog {
  import opened Outcomes
  import opened Text
  import opened Numerals
  import opened FenceProxy
  import opened FenceProcess
  import opened FenceConnections
  import A = AuditReceipts

  /** What start-up configuration puts into every receipt. */
  datatype Names = Names(validatorSet: string, holder: string, lease: string)

  /** The four time texts and numbers of one receipt. */
  datatype Times = Times(openedUtc: string, closedUtc: string, openedMs: int, closedMs: int)

  function ResultText(r: CloseResult): string {
    match r
    case AuthorityExpired => "authority-expired"
    case UpstreamDialFailed => "upstream-dial-failed"
    case TunnelClosed => "closed"
  }

  function Entry(n: Names, r: Receipt, t: Times): A.Receipt {
    A.Receipt(n.validatorSet, n.holder, n.lease, r.id, t.openedUtc, t.closedUtc, t.openedMs, t.closedMs,
              ResultText(r.result))
  }

  function Entries(n: Names, receipts: seq<Receipt>, times: seq<Times>): (entries: seq<A.Receipt>)
    requires |times| == |receipts|
    ensures |entries| == |receipts|
  {
    seq(|receipts|, i requires 0 <= i < |receipts| => Entry(n, receipts[i], times[i]))
  }

  predicate ValidNames(n: Names) {
    A.ValidField(n.validatorSet) && A.ValidField(n.holder) && A.ValidField(n.lease)
  }

  predicate ValidTimes(times: seq<Times>) {
    forall i :: 0 <= i < |times| ==> A.ValidField(times[i].openedUtc) && A.ValidField(times[i].closedUtc)
  }

  lemma ResultsAreValid()
    ensures A.ValidField("authority-expired") && A.ValidField("upstream-dial-failed") && A.ValidField("closed")
  {
  }

  /** The log that the receipts of a run leave. */
  function LogOf(n: Names, receipts: seq<Receipt>, times: seq<Times>): string
    requires |times| == |receipts|
  {
    Unlines(A.Lines(Entries(n, receipts, times)), '\n')
  }

  lemma {:induction false} TwoReceipts(receipts: seq<Receipt>, i: nat, j: nat)
    requires i < j < |receipts| && receipts[i].conn == receipts[j].conn
    ensures ReceiptsOf(receipts, receipts[i].conn) >= 2
    decreases |receipts|
  {
    var n := |receipts| - 1;
    if j < n {
      TwoReceipts(receipts[..n], i, j);
    } else {
      OneReceipt(receipts[..n], i);
    }
  }

  lemma {:induction false} OneReceipt(receipts: seq<Receipt>, i: nat)
    requires i < |receipts|
    ensures ReceiptsOf(receipts, receipts[i].conn) >= 1
    decreases |receipts|
  {
    if i < |receipts| - 1 {
      OneReceipt(receipts[..|receipts| - 1], i);
    }
  }

  lemma {:induction false} SomeReceipt(receipts: seq<Receipt>, c: Conn)
    requires ReceiptsOf(receipts, c) >= 1
    ensures exists i :: 0 <= i < |receipts| && receipts[i].conn == c
    decreases |receipts|
  {
    var n := |receipts| - 1;
    if receipts[n].conn != c {
      SomeReceipt(receipts[..n], c);
      var i :| 0 <= i < n && receipts[..n][i].conn == c;
      assert receipts[i].conn == c;
    }
  }

  /** The line reads back to what was configured, the connection's id, the times and, as its result,
      what became of the connection. */
  ghost predicate Reports(p: Process, n: Names, times: seq<Times>, line: string, i: int, c: Conn)
    requires |times| == |p.receipts|
  {
    && 0 <= i < |p.receipts| && p.receipts[i].conn == c && c in p.tunnels
    && A.ReadLine(line) == Some([
         A.Pair("validator_set", n.validatorSet), A.Pair("holder", n.holder), A.Pair("lease", n.lease),
         A.Pair("connection_id", Padded(p.tunnels[c].id, 16, 16)),
         A.Pair("opened_at_utc", times[i].openedUtc), A.Pair("closed_at_utc", times[i].closedUtc),
         A.Pair("opened_at_ms", Decimal(times[i].openedMs)), A.Pair("closed_at_ms", Decimal(times[i].closedMs)),
         A.Pair("result", if p.tunnels[c].dialed then "closed"
                          else if p.tunnels[c].deadline.None? then "authority-expired"
                          else "upstream-dial-failed")])
  }

  /** The log's lines: one for every receipt, each ended by a newline. */
  ghost function LogLines(p: Process, n: Names, times: seq<Times>): seq<string>
    requires |times| == |p.receipts|
  {
    Split(LogOf(n, p.receipts, times), '\n')
  }

  ghost predicate EachLineReports(p: Process, n: Names, times: seq<Times>)
    requires |times| == |p.receipts|
  {
    var lines := LogLines(p, n, times);
    && |lines| == |p.receipts| + 1 && lines[|p.receipts|] == ""
    && forall i :: 0 <= i < |p.receipts| ==> Reports(p, n, times, lines[i], i, p.receipts[i].conn)
  }

  ghost predicate EachReportHasItsLine(p: Process, n: Names, times: seq<Times>)
    requires |times| == |p.receipts|
  {
    var lines := LogLines(p, n, times);
    forall c :: c in p.tunnels && Reported(p.tunnels[c].stage) ==>
      exists i :: 0 <= i < |lines| && Reports(p, n, times, lines[i], i, c)
  }

  /** No connection has two lines, and the ids printed on any two lines differ. */
  ghost predicate LinesAreDistinct(p: Process) {
    forall i, j :: 0 <= i < j < |p.receipts| ==>
      p.receipts[i].conn != p.receipts[j].conn && Padded(p.receipts[i].id, 16, 16) != Padded(p.receipts[j].id, 16, 16)
  }

  /** In every run: the log splits into exactly one line per receipt, each of which reads back to its
      fields; each line reports a connection and says what became of it; each connection that has come
      to report has its line, and no two lines share a connection or an id. */
  lemma RunsLogEveryConnectionOnce(clock: int, maxAge: int, steps: seq<Step>, n: Names, times: seq<Times>)
    requires Execute(Boot(clock, maxAge), steps).Some? && ValidNames(n) && ValidTimes(times)
    requires |times| == |Execute(Boot(clock, maxAge), steps).value.receipts|
    ensures var p := Execute(Boot(clock, maxAge), steps).value;
      EachLineReports(p, n, times) && EachReportHasItsLine(p, n, times) && LinesAreDistinct(p)
  {
    RunsKeepConnections(clock, maxAge, steps);
    LogOfProcess(Execute(Boot(clock, maxAge), steps).value, n, times);
  }

  lemma LogOfProcess(p: Process, n: Names, times: seq<Times>)
    requires ReceiptsInv(p) && ValidNames(n) && ValidTimes(times) && |times| == |p.receipts|
    ensures EachLineReports(p, n, times) && EachReportHasItsLine(p, n, times) && LinesAreDistinct(p)
  {
    var lines, entries := LogLines(p, n, times), Entries(n, p.receipts, times);
    EntriesAreValid(n, p.receipts, times);
    A.LogSplitsIntoReceipts(entries);
    forall i | 0 <= i < |p.receipts| ensures Reports(p, n, times, lines[i], i, p.receipts[i].conn) {
      assert lines[i] == A.Line(entries[i]);
      ReceiptReports(p, n, times, i);
    }
    forall c | c in p.tunnels && Reported(p.tunnels[c].stage)
      ensures exists i :: 0 <= i < |lines| && Reports(p, n, times, lines[i], i, c)
    {
      assert TunnelInv(p, c);
      SomeReceipt(p.receipts, c);
      var i :| 0 <= i < |p.receipts| && p.receipts[i].conn == c;
      assert Reports(p, n, times, lines[i], i, c);
    }
    forall i, j | 0 <= i < j < |p.receipts|
      ensures p.receipts[i].conn != p.receipts[j].conn
      ensures Padded(p.receipts[i].id, 16, 16) != Padded(p.receipts[j].id, 16, 16)
    {
      LinesDiffer(p, i, j);
    }
  }

  lemma EntriesAreValid(n: Names, receipts: seq<Receipt>, times: seq<Times>)
    requires ValidNames(n) && ValidTimes(times) && |times| == |receipts|
    ensures forall i :: 0 <= i < |receipts| ==> A.ValidReceipt(Entries(n, receipts, times)[i])
  {
    ResultsAreValid();
  }

  lemma ReceiptReports(p: Process, n: Names, times: seq<Times>, i: nat)
    requires ReceiptsInv(p) && |times| == |p.receipts| && i < |p.receipts|
    requires A.ValidReceipt(Entry(n, p.receipts[i], times[i]))
    ensures Reports(p, n, times, A.Line(Entry(n, p.receipts[i], times[i])), i, p.receipts[i].conn)
  {
    assert ReceiptInv(p, i) && TunnelInv(p, p.receipts[i].conn);
    A.ReceiptReadsBack(Entry(n, p.receipts[i], times[i]));
  }

  lemma LinesDiffer(p: Process, i: nat, j: nat)
    requires ReceiptsInv(p) && i < j < |p.receipts|
    ensures p.receipts[i].conn != p.receipts[j].conn
    ensures Padded(p.receipts[i].id, 16, 16) != Padded(p.receipts[j].id, 16, 16)
  {
    var c, d := p.receipts[i].conn, p.receipts[j].conn;
    assert TunnelInv(p, c) && TunnelInv(p, d) && ReceiptInv(p, i) && ReceiptInv(p, j);
    if c == d {
      TwoReceipts(p.receipts, i, j);
    }
    assert DistinctIds(p, c, d);
    DistinctIdTexts(p.receipts[i].id, p.receipts[j].id);
  }

  lemma DistinctIdTexts(a: nat, b: nat)
    requires a != b
    ensures Padded(a, 16, 16) != Padded(b, 16, 16)
  {
    if Padded(a, 16, 16) == Padded(b, 16, 16) {
      PaddedIsInjective(a, b, 16, 16);
    }
  }
}
