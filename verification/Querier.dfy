/** The queries over flow_metrics (querier.go): building the filter, asking the database, and narrowing
    the counters to int64. The database is a function that answers as FlowTable says. */
module Querier {
  import opened Words
  import opened Outcomes
  import opened Text
  import opened Packets
  import opened FlowTotals
  import opened SnapshotCut
  import opened FlowTable
  import opened SnapshotTable

  /** A condition "column = ?" or "Timestamp <= ?". Its argument stands at the same place of the argument list. */
  datatype Clause = TaskNameIs | FieldIs(field: Field) | TimestampAtMost
  datatype Arg = TextArg(s: string) | NumberArg(n: int) | TimeArg(t: int)

  function TextOf(v: Shown): string {
    match v
    case Label(text) => text
    case Amount(n) => Itoa(n)
  }

  /** A number column compares with a text as its decimal form; NULL never compares equal. */
  predicate Satisfies(r: Row, c: Clause, a: Arg) {
    match (c, a)
    case (TaskNameIs, TextArg(s)) => r.task == s
    case (FieldIs(f), TextArg(s)) => f in r.record.fields && TextOf(r.record.fields[f]) == s
    case (FieldIs(f), NumberArg(n)) => f in r.record.fields && n >= 0 && r.record.fields[f] == Amount(n)
    case (TimestampAtMost, TimeArg(t)) => r.timestamp <= t
    case _ => false
  }

  /** The WHERE condition as a whole. */
  predicate Passes(r: Row, clauses: seq<Clause>, args: seq<Arg>) {
    |clauses| == |args| && forall i :: 0 <= i < |clauses| ==> Satisfies(r, clauses[i], args[i])
  }

  lemma PassesBoth(r: Row, c: seq<Clause>, a: seq<Arg>, d: seq<Clause>, b: seq<Arg>)
    requires |c| == |a| && |d| == |b|
    ensures Passes(r, c + d, a + b) <==> Passes(r, c, a) && Passes(r, d, b)
  {
    if Passes(r, c + d, a + b) {
      forall i | 0 <= i < |c| ensures Satisfies(r, c[i], a[i]) {
        assert (c + d)[i] == c[i] && (a + b)[i] == a[i];
      }
      forall i | 0 <= i < |d| ensures Satisfies(r, d[i], b[i]) {
        assert (c + d)[|c| + i] == d[i] && (a + b)[|a| + i] == b[i];
      }
    }
  }

  lemma PassesOneMore(c: seq<Clause>, a: seq<Arg>, d: Clause, b: Arg)
    requires |c| == |a|
    ensures forall r :: Passes(r, c + [d], a + [b]) <==> Passes(r, c, a) && Satisfies(r, d, b)
  {
    forall r ensures Passes(r, c + [d], a + [b]) <==> Passes(r, c, a) && Satisfies(r, d, b) {
      PassesBoth(r, c, a, [d], [b]);
      assert Passes(r, [d], [b]) <==> Satisfies(r, [d][0], [b][0]);
    }
  }

  // Aggregation.

  datatype AggregationRequest = AggregationRequest(taskName: string, srcIP: string, dstIP: string, srcPort: Option<int>,
                                                   dstPort: Option<int>, protocol: Option<int>, endTime: Option<int>)

  /** The conditions on a flow that a request sets; an empty text or a nil pointer sets none. */
  predicate Asked(req: AggregationRequest, r: Row) {
    && (req.taskName != "" ==> r.task == req.taskName)
    && (req.srcIP != "" ==> Satisfies(r, FieldIs(SrcIP), TextArg(req.srcIP)))
    && (req.dstIP != "" ==> Satisfies(r, FieldIs(DstIP), TextArg(req.dstIP)))
    && (req.srcPort.Some? ==> Satisfies(r, FieldIs(SrcPort), NumberArg(req.srcPort.value)))
    && (req.dstPort.Some? ==> Satisfies(r, FieldIs(DstPort), NumberArg(req.dstPort.value)))
    && (req.protocol.Some? ==> Satisfies(r, FieldIs(Protocol), NumberArg(req.protocol.value)))
  }

  /** What a request asks of a row written for a packet's flow: every field it sets is a key field of the task
      and has the packet's value. */
  lemma AskedOfPacket(s: Scheme, req: AggregationRequest, ft: FiveTuple, r: Row)
    requires r.record.fields == s.FieldsOf(ft)
    ensures Asked(req, r) <==>
              && (req.taskName != "" ==> r.task == req.taskName)
              && (req.srcIP != "" ==> SrcIP in s.fields && s.ipText(ft.srcIP) == req.srcIP)
              && (req.dstIP != "" ==> DstIP in s.fields && s.ipText(ft.dstIP) == req.dstIP)
              && (req.srcPort.Some? ==> SrcPort in s.fields && ft.srcPort == req.srcPort.value)
              && (req.dstPort.Some? ==> DstPort in s.fields && ft.dstPort == req.dstPort.value)
              && (req.protocol.Some? ==> Protocol in s.fields && ft.protocol == req.protocol.value)
  {
  }

  method AppendText(clauses: seq<Clause>, args: seq<Arg>, c: Clause, s: string) returns (d: seq<Clause>, b: seq<Arg>)
    requires |clauses| == |args|
    ensures |d| == |b|
    ensures forall r :: Passes(r, d, b) <==> Passes(r, clauses, args) && (s != "" ==> Satisfies(r, c, TextArg(s)))
  {
    d, b := clauses, args;
    if s != "" {
      PassesOneMore(d, b, c, TextArg(s));
      d, b := d + [c], b + [TextArg(s)];
    }
  }

  method AppendNumber(clauses: seq<Clause>, args: seq<Arg>, c: Clause, n: Option<int>)
    returns (d: seq<Clause>, b: seq<Arg>)
    requires |clauses| == |args|
    ensures |d| == |b|
    ensures forall r :: Passes(r, d, b) <==>
              Passes(r, clauses, args) && (n.Some? ==> Satisfies(r, c, NumberArg(n.value)))
  {
    d, b := clauses, args;
    if n.Some? {
      PassesOneMore(d, b, c, NumberArg(n.value));
      d, b := d + [c], b + [NumberArg(n.value)];
    }
  }

  method AppendAggregationFilters(clauses: seq<Clause>, args: seq<Arg>, req: AggregationRequest)
    returns (d: seq<Clause>, b: seq<Arg>)
    requires |clauses| == |args|
    ensures |d| == |b|
    ensures forall r :: Passes(r, d, b) <==> Passes(r, clauses, args) && Asked(req, r)
  {
    d, b := AppendText(clauses, args, TaskNameIs, req.taskName);
    d, b := AppendText(d, b, FieldIs(SrcIP), req.srcIP);
    d, b := AppendText(d, b, FieldIs(DstIP), req.dstIP);
    d, b := AppendNumber(d, b, FieldIs(SrcPort), req.srcPort);
    d, b := AppendNumber(d, b, FieldIs(DstPort), req.dstPort);
    d, b := AppendNumber(d, b, FieldIs(Protocol), req.protocol);
  }

  function Uint64ToInt64(value: uint64, field: string): (r: Result<int>)
    ensures r.Ok? <==> value < TWO_63
    ensures r.Ok? ==> r.value == value
  {
    if value > TWO_63 - 1 then Err(field + " exceeds int64 range: " + Itoa(value)) else Ok(value)
  }

  datatype TaskSummary = TaskSummary(task: string, totalBytes: int, totalPackets: int, flowCount: int)

  predicate Narrow(row: TaskRow) {
    row.bytes < TWO_63 && row.packets < TWO_63 && row.flows < TWO_63
  }

  /** The rows of the table that a filter lets through. */
  ghost function Chosen(table: set<Row>, clauses: seq<Clause>, args: seq<Arg>): set<Row> {
    set r | r in table && Passes(r, clauses, args)
  }

  /** The outer query over a result of the inner one: one row per task that has a row left, in any order. */
  ghost predicate Lists(answer: seq<TaskRow>, inner: map<FlowId, Counters>) {
    && (forall t :: t in answer <==> exists id :: id in inner && t == Summarize(inner, id.task))
    && (forall i, j :: 0 <= i < j < |answer| ==> answer[i].task != answer[j].task)
    && (forall i :: 0 <= i < |answer| ==> answer[i].flows < TWO_64)
  }

  /** What the aggregation query may return. */
  ghost predicate Answers(answer: seq<TaskRow>, rows: set<Row>) {
    exists inner :: IsInner(rows, inner) && Lists(answer, inner)
  }

  /** The loop over the result rows: the first counter beyond int64 aborts. */
  method ScanSummaries(answer: seq<TaskRow>) returns (res: Result<seq<TaskSummary>>)
    requires forall i :: 0 <= i < |answer| ==> answer[i].flows < TWO_64
    ensures res.Ok? <==> forall i :: 0 <= i < |answer| ==> Narrow(answer[i])
    ensures res.Ok? ==>
              && |res.value| == |answer|
              && forall i :: 0 <= i < |answer| ==>
                   && res.value[i].task == answer[i].task && res.value[i].totalBytes == answer[i].bytes
                   && res.value[i].totalPackets == answer[i].packets && res.value[i].flowCount == answer[i].flows
  {
    var summaries: seq<TaskSummary> := [];
    var i := 0;
    while i < |answer|
      invariant 0 <= i <= |answer| && |summaries| == i
      invariant forall j :: 0 <= j < i ==>
                  && Narrow(answer[j])
                  && summaries[j].task == answer[j].task && summaries[j].totalBytes == answer[j].bytes
                  && summaries[j].totalPackets == answer[j].packets && summaries[j].flowCount == answer[j].flows
    {
      var totalBytes := Uint64ToInt64(answer[i].bytes, "aggregation.total_bytes");
      if totalBytes.Err? {
        return Err(totalBytes.message);
      }
      var totalPackets := Uint64ToInt64(answer[i].packets, "aggregation.total_packets");
      if totalPackets.Err? {
        return Err(totalPackets.message);
      }
      var flowCount := Uint64ToInt64(answer[i].flows, "aggregation.flow_count");
      if flowCount.Err? {
        return Err(flowCount.message);
      }
      summaries := summaries + [TaskSummary(answer[i].task, totalBytes.value, totalPackets.value, flowCount.value)];
      i := i + 1;
    }
    res := Ok(summaries);
  }

  /** The rows a request is about. */
  ghost function RowsFor(table: set<Row>, req: AggregationRequest): set<Row> {
    set r | r in table && Asked(req, r) && (req.endTime.Some? ==> r.timestamp <= req.endTime.value)
  }

  /** A summary with a row's task and totals. */
  predicate Shows(t: TaskSummary, row: TaskRow) {
    && t.task == row.task && t.totalBytes == row.bytes
    && t.totalPackets == row.packets && t.flowCount == row.flows
  }

  /** The response for a result of the inner query: an error exactly when a total does not fit an int64,
      otherwise one summary per task. */
  ghost predicate Reported(res: Result<seq<TaskSummary>>, inner: map<FlowId, Counters>) {
    && (res.Ok? <==> forall id :: id in inner ==> Narrow(Summarize(inner, id.task)))
    && (res.Ok? ==>
          && (forall t :: t in res.value <==> exists id :: id in inner && Shows(t, Summarize(inner, id.task)))
          && (forall i, j :: 0 <= i < j < |res.value| ==> res.value[i].task != res.value[j].task))
  }

  /** One summary per task with a row the request is about, each the two-stage total of those rows; an
      error exactly when the database fails or a total does not fit an int64. */
  method AggregateFlows(ghost table: set<Row>, database: (seq<Clause>, seq<Arg>) -> Result<seq<TaskRow>>,
                        req: AggregationRequest)
    returns (res: Result<seq<TaskSummary>>)
    requires forall c, a :: database(c, a).Ok? ==> Answers(database(c, a).value, Chosen(table, c, a))
    ensures exists c, a ::
              && (forall t :: Chosen(t, c, a) == RowsFor(t, req))
              && if database(c, a).Err? then res.Err?
                 else exists inner :: IsInner(RowsFor(table, req), inner) && Reported(res, inner)
  {
    var clauses, args := AppendAggregationFilters([], [], req);
    if req.endTime.Some? {
      PassesOneMore(clauses, args, TimestampAtMost, TimeArg(req.endTime.value));
      clauses, args := clauses + [TimestampAtMost], args + [TimeArg(req.endTime.value)];
    }
    assert forall t :: Chosen(t, clauses, args) == RowsFor(t, req);
    var answer := database(clauses, args);
    if answer.Err? {
      return Err(answer.message);
    }
    assert Answers(answer.value, RowsFor(table, req));
    ghost var inner :| IsInner(RowsFor(table, req), inner) && Lists(answer.value, inner);
    res := ScanSummaries(answer.value);
    ListedIsReported(answer.value, inner, res);
  }

  lemma ListedIsReported(answer: seq<TaskRow>, inner: map<FlowId, Counters>, res: Result<seq<TaskSummary>>)
    requires Lists(answer, inner)
    requires res.Ok? <==> forall i :: 0 <= i < |answer| ==> Narrow(answer[i])
    requires res.Ok? ==>
               |res.value| == |answer| && forall i :: 0 <= i < |answer| ==> Shows(res.value[i], answer[i])
    ensures Reported(res, inner)
  {
    forall i | 0 <= i < |answer| ensures exists id :: id in inner && answer[i] == Summarize(inner, id.task) {
      assert answer[i] in answer;
    }
    forall id | id in inner ensures exists i :: 0 <= i < |answer| && answer[i] == Summarize(inner, id.task) {
      assert Summarize(inner, id.task) in answer;
    }
  }

  /** No length is negative, and packets and bytes fit an int64. */
  predicate Fits63(h: seq<PacketInfo>) {
    |h| < TWO_63 && NoneNegative(h) && Lengths(h) < TWO_63
  }

  /** The response for one task: a single summary, with packets, plain bytes and distinct keys between those at
      two moments. */
  ghost predicate OneSummaryWithin(res: Result<seq<TaskSummary>>, task: string, s: Scheme, span: Span) {
    && res.Ok? && |res.value| == 1 && res.value[0].task == task
    && |span.before| <= res.value[0].totalPackets <= |span.after|
    && Lengths(span.before) <= res.value[0].totalBytes <= Lengths(span.after)
    && |s.Flows(span.before)| <= res.value[0].flowCount <= |s.Flows(span.after)|
  }

  /** The request for one task up to a time. */
  function ForTask(task: string, endTime: int): AggregationRequest {
    AggregationRequest(task, "", "", None, None, None, Some(endTime))
  }

  lemma RequestForTask(table: set<Row>, task: string, endTime: int)
    requires task != ""
    ensures RowsFor(table, ForTask(task, endTime)) == RowsUntil(table, task, endTime)
  {
  }

  lemma SomethingIn<T>(s: seq<T>)
    ensures s != [] ==> exists t :: t in s
  {
    if s != [] {
      assert s[0] in s;
    }
  }

  /** A response about rows of one task has at most one summary, with the totals of these rows. */
  lemma OneSummary(task: string, rows: set<Row>, inner: map<FlowId, Counters>, res: Result<seq<TaskSummary>>)
    requires IsInner(rows, inner) && Reported(res, inner) && forall r: Row :: r in rows ==> r.task == task
    ensures rows == {} ==> res == Ok([])
    ensures rows != {} ==> (res.Ok? <==> Narrow(Summarize(inner, task)))
    ensures rows != {} && res.Ok? ==> |res.value| == 1 && Shows(res.value[0], Summarize(inner, task))
  {
    assert forall id :: id in inner ==> id.task == task;
    if rows == {} {
      assert inner.Keys == {};
      assert res.Ok?;
      SomethingIn(res.value);
    } else {
      var r :| r in rows;
      assert IdOf(r) in inner;
      if res.Ok? {
        var row := Summarize(inner, task);
        assert Shows(TaskSummary(row.task, row.bytes, row.packets, row.flows), Summarize(inner, IdOf(r).task));
        assert TaskSummary(row.task, row.bytes, row.packets, row.flows) in res.value;
        forall i | 0 <= i < |res.value| ensures Shows(res.value[i], row) {
          assert res.value[i] in res.value;
        }
        assert |res.value| > 1 ==> res.value[0].task == res.value[1].task;
      }
    }
  }

  /** End to end: AggregateFlows for one task up to a time, over the table that its writer filled, with
      snapshots settled up to that time. If a packet had been processed when the last of them was asked
      for, the response is exactly one summary of the task, with packets, bytes and flows between those processed
      then and when that snapshot returned. */
  lemma TaskQueryIsBetween(s: Scheme, spans: seq<Span>, snaps: seq<Snap>, endTime: int, task: string, table: set<Row>,
                           inner: map<FlowId, Counters>, res: Result<seq<TaskSummary>>)
    requires snaps != [] && InOrder(snaps) && AllBounded(s, spans, snaps) && WrittenUpTo(table, task, snaps, endTime)
    requires s.Known() && Settled(task, snaps, ALL)
    requires task != "" && IsInner(RowsFor(table, ForTask(task, endTime)), inner) && Reported(res, inner)
    requires var span := spans[|spans| - 1]; span.before != [] && Fits63(span.after)
    ensures OneSummaryWithin(res, task, s, spans[|spans| - 1])
  {
    RequestForTask(table, task, endTime);
    AggregateIsBetween(s, spans, snaps, endTime, task, table, inner);
    SummaryBetween(s, spans[|spans| - 1], task, RowsUntil(table, task, endTime), inner, res);
  }

  lemma SummaryBetween(s: Scheme, span: Span, task: string, rows: set<Row>, inner: map<FlowId, Counters>,
                       res: Result<seq<TaskSummary>>)
    requires s.Known() && span.before != [] && Fits63(span.after)
    requires IsInner(rows, inner) && Reported(res, inner) && forall r: Row :: r in rows ==> r.task == task
    requires Between(Summarize(inner, task), s, span)
    ensures OneSummaryWithin(res, task, s, span)
  {
    BetweenPlainly(s, span, Summarize(inner, task));
    FlowsMeanRows(rows, inner, task);
    OneSummary(task, rows, inner, res);
  }

  lemma BetweenPlainly(s: Scheme, span: Span, t: TaskRow)
    requires s.Known() && span.before != [] && Fits63(span.after) && Between(t, s, span)
    ensures Narrow(t) && t.flows > 0
    ensures Lengths(span.before) <= t.bytes <= Lengths(span.after)
    ensures |s.Flows(span.before)| <= t.flows <= |s.Flows(span.after)|
  {
    FewFlows(s, span.after);
    SomeFlow(s, span.before);
    SizesAreLengths(span.before);
    SizesAreLengths(span.after);
    FlowsAreKeys(s, span.before);
    FlowsAreKeys(s, span.after);
  }

  lemma FlowsMeanRows(rows: set<Row>, inner: map<FlowId, Counters>, task: string)
    requires IsInner(rows, inner) && Summarize(inner, task).flows > 0
    ensures rows != {}
  {
    assert rows == {} ==> OfTask(inner.Keys, task) == {};
  }

  /** There are no more flows than packets, and one as soon as there is a packet. */
  lemma {:induction false} FewFlows(s: Scheme, h: seq<PacketInfo>)
    ensures |Replay(s, h)| <= |h|
  {
    if h != [] {
      var m := Replay(s, h[..|h| - 1]);
      FewFlows(s, h[..|h| - 1]);
      var k := s.KeyOf(h[|h| - 1].fiveTuple);
      assert Replay(s, h).Keys <= m.Keys + {k};
      SubsetSize(Replay(s, h).Keys, m.Keys + {k});
      assert |Replay(s, h).Keys| == |Replay(s, h)| && |m.Keys| == |m|;
    }
  }

  lemma {:induction false} SomeFlow(s: Scheme, h: seq<PacketInfo>)
    requires s.Known() && h != []
    ensures |Replay(s, h)| > 0
  {
    assert s.KeyOf(h[|h| - 1].fiveTuple) in Replay(s, h);
  }

  /** With no snapshot up to the end time the response is empty. */
  lemma TaskQueryBeforeFirst(endTime: int, task: string, table: set<Row>, inner: map<FlowId, Counters>,
                             res: Result<seq<TaskSummary>>)
    requires task != "" && WrittenUpTo(table, task, [], endTime)
    requires IsInner(RowsFor(table, ForTask(task, endTime)), inner) && Reported(res, inner)
    ensures res == Ok([])
  {
    var rows := RowsUntil(table, task, endTime);
    RequestForTask(table, task, endTime);
    RowsUntilSelected(table, task, [], endTime);
    NothingSelected(rows, task, ALL);
    assert forall r: Row :: r in rows ==> IdOf(r) in OfTask(Ids(rows), task);
    OneSummary(task, rows, inner, res);
  }

  // Tracing.

  function Rank(f: Field): nat {
    match f
    case DstIP => 0
    case DstPort => 1
    case Protocol => 2
    case SrcIP => 3
    case SrcPort => 4
    case Unknown(_) => 5
  }

  function NameOf(f: Field): string {
    match f
    case SrcIP => "SrcIP"
    case DstIP => "DstIP"
    case SrcPort => "SrcPort"
    case DstPort => "DstPort"
    case Protocol => "Protocol"
    case Unknown(name) => name
  }

  predicate Alphabetical(a: string, b: string) {
    b != "" && (a == "" || a[0] < b[0] || (a[0] == b[0] && Alphabetical(a[1..], b[1..])))
  }

  lemma {:induction false} SamePrefix(p: string, a: string, b: string)
    ensures Alphabetical(p + a, p + b) <==> Alphabetical(a, b)
  {
    if p == "" {
      assert p + a == a && p + b == b;
    } else {
      SamePrefix(p[1..], a, b);
      assert (p + a)[1..] == p[1..] + a && (p + b)[1..] == p[1..] + b;
    }
  }

  lemma {:induction false} NeverBeforeItself(a: string)
    ensures !Alphabetical(a, a)
  {
    SamePrefix(a, "", "");
    assert a + "" == a;
  }

  lemma {:induction false} AddressBeforePort(p: string)
    ensures Alphabetical(p + "IP", p + "Port") && !Alphabetical(p + "Port", p + "IP")
  {
    SamePrefix(p, "IP", "Port");
    SamePrefix(p, "Port", "IP");
  }

  /** The order of the keys is that of their names. */
  lemma RankIsAlphabetical(f: Field, g: Field)
    requires !f.Unknown? && !g.Unknown?
    ensures Rank(f) < Rank(g) <==> Alphabetical(NameOf(f), NameOf(g))
  {
    AddressBeforePort("Dst");
    AddressBeforePort("Src");
    assert "Dst" + "IP" == "DstIP" && "Dst" + "Port" == "DstPort";
    assert "Src" + "IP" == "SrcIP" && "Src" + "Port" == "SrcPort";
    NeverBeforeItself(NameOf(f));
  }

  predicate Ascending(keys: seq<Field>) {
    forall i, j :: 0 <= i < j < |keys| ==> Rank(keys[i]) < Rank(keys[j])
  }

  /** Puts a name in its alphabetical place. */
  function InsertField(keys: seq<Field>, f: Field): (r: seq<Field>)
    requires Ascending(keys) && !f.Unknown? && f !in keys && forall g :: g in keys ==> !g.Unknown?
    ensures Ascending(r) && |r| == |keys| + 1 && forall g :: g in r <==> g == f || g in keys
  {
    if keys == [] then [f]
    else
      FirstIsLeast(keys);
      if Rank(f) < Rank(keys[0]) then
        PutFirst(f, keys);
        [f] + keys
      else
        var rest := InsertField(keys[1..], f);
        PutFirst(keys[0], rest);
        [keys[0]] + rest
  }

  lemma FirstIsLeast(keys: seq<Field>)
    requires Ascending(keys) && keys != []
    ensures Ascending(keys[1..]) && forall g :: g in keys[1..] ==> g in keys && Rank(keys[0]) < Rank(g)
    ensures forall g :: g in keys ==> g == keys[0] || g in keys[1..]
  {
  }

  lemma PutFirst(f: Field, keys: seq<Field>)
    requires Ascending(keys) && forall g :: g in keys ==> Rank(f) < Rank(g)
    ensures Ascending([f] + keys)
  {
  }

  /** The supported keys in alphabetical order, whatever order the map yields them in; fails on any other. */
  method SortedKeys(flowKeys: map<Field, string>) returns (ok: bool, sortedKeys: seq<Field>)
    ensures ok <==> forall f :: f in flowKeys ==> !f.Unknown?
    ensures ok ==> Ascending(sortedKeys) && forall f :: f in sortedKeys <==> f in flowKeys
  {
    ok, sortedKeys := true, [];
    var todo := flowKeys.Keys;
    while todo != {}
      invariant todo <= flowKeys.Keys && Ascending(sortedKeys)
      invariant forall f :: f in sortedKeys <==> f in flowKeys.Keys - todo
      invariant forall f :: f in sortedKeys ==> !f.Unknown?
    {
      var key :| key in todo;
      if key.Unknown? {
        ok := false;
        return;
      }
      sortedKeys := InsertField(sortedKeys, key);
      todo := todo - {key};
    }
  }

  method AppendTraceFlowFilters(clauses: seq<Clause>, args: seq<Arg>, flowKeys: map<Field, string>)
    returns (ok: bool, d: seq<Clause>, b: seq<Arg>)
    requires |clauses| == |args|
    ensures ok <==> forall f :: f in flowKeys ==> !f.Unknown?
    ensures ok ==>
              && |d| == |b|
              && forall r :: Passes(r, d, b) <==>
                   && Passes(r, clauses, args)
                   && forall f :: f in flowKeys ==> Satisfies(r, FieldIs(f), TextArg(flowKeys[f]))
  {
    var sortedKeys;
    ok, sortedKeys := SortedKeys(flowKeys);
    d, b := clauses, args;
    if !ok {
      return;
    }
    var i := 0;
    while i < |sortedKeys|
      invariant 0 <= i <= |sortedKeys| && |d| == |b|
      invariant forall r :: Passes(r, d, b) <==>
                  Passes(r, clauses, args)
                  && forall j :: 0 <= j < i ==> Satisfies(r, FieldIs(sortedKeys[j]), TextArg(flowKeys[sortedKeys[j]]))
    {
      var key := sortedKeys[i];
      PassesOneMore(d, b, FieldIs(key), TextArg(flowKeys[key]));
      d, b := d + [FieldIs(key)], b + [TextArg(flowKeys[key])];
      i := i + 1;
    }
    forall r ensures Passes(r, d, b) <==>
        Passes(r, clauses, args) && forall f :: f in flowKeys ==> Satisfies(r, FieldIs(f), TextArg(flowKeys[f]))
    {
      if Passes(r, d, b) {
        forall f | f in flowKeys ensures Satisfies(r, FieldIs(f), TextArg(flowKeys[f])) {
          assert f in sortedKeys;
        }
      }
    }
  }

  datatype TraceFlowRequest = TraceFlowRequest(taskName: string, flowKeys: map<Field, string>, endTime: Option<int>)

  ghost function TracedRows(table: set<Row>, req: TraceFlowRequest): set<Row> {
    set r | r in table && r.task == req.taskName && (req.endTime.Some? ==> r.timestamp <= req.endTime.value)
            && forall f :: f in req.flowKeys ==> Satisfies(r, FieldIs(f), TextArg(req.flowKeys[f]))
  }

  /** The one row that the database answers a trace with: zeros when no row was chosen. */
  ghost predicate IsAnswer(rows: set<Row>, l: Lifecycle) {
    && l.packets < TWO_64 && l.bytes < TWO_64
    && if rows == {} then l == Lifecycle(0, 0, 0, 0) else IsLifecycle(rows, l)
  }

  predicate Countable(l: Lifecycle) {
    l.packets < TWO_63 && l.bytes < TWO_63
  }

  /** The lifecycle of the rows asked for; zeros when there are none; an error exactly for an unsupported
      key, a failing database or a counter beyond int64. */
  method TraceFlow(ghost table: set<Row>, database: (seq<Clause>, seq<Arg>) -> Result<Lifecycle>, req: TraceFlowRequest)
    returns (res: Result<Lifecycle>)
    requires forall c, a :: database(c, a).Ok? ==> IsAnswer(Chosen(table, c, a), database(c, a).value)
    ensures (exists f :: f in req.flowKeys && f.Unknown?) ==> res.Err?
    ensures (forall f :: f in req.flowKeys ==> !f.Unknown?) ==>
              exists c, a ::
                && (forall t :: Chosen(t, c, a) == TracedRows(t, req))
                && if database(c, a).Err? then res.Err?
                   else exists l ::
                     IsAnswer(TracedRows(table, req), l) && if Countable(l) then res == Ok(l) else res.Err?
  {
    PassesOneMore([], [], TaskNameIs, TextArg(req.taskName));
    var ok, clauses, args := AppendTraceFlowFilters([TaskNameIs], [TextArg(req.taskName)], req.flowKeys);
    if !ok {
      return Err("unsupported flow key");
    }
    assert [] + [TaskNameIs] == [TaskNameIs] && [] + [TextArg(req.taskName)] == [TextArg(req.taskName)];
    if req.endTime.Some? {
      PassesOneMore(clauses, args, TimestampAtMost, TimeArg(req.endTime.value));
      clauses, args := clauses + [TimestampAtMost], args + [TimeArg(req.endTime.value)];
    }
    assert forall t :: Chosen(t, clauses, args) == TracedRows(t, req);
    var row := database(clauses, args);
    if row.Err? {
      return Err(row.message);
    }
    assert IsAnswer(TracedRows(table, req), row.value);
    var totalPackets := Uint64ToInt64(row.value.packets, "trace.total_packets");
    if totalPackets.Err? {
      return Err(totalPackets.message);
    }
    var totalBytes := Uint64ToInt64(row.value.bytes, "trace.total_bytes");
    if totalBytes.Err? {
      return Err(totalBytes.message);
    }
    res := Ok(Lifecycle(row.value.firstSeen, row.value.lastSeen, totalPackets.value, totalBytes.value));
  }

  lemma ShownByItsText(s: Scheme, f: Field, ft: FiveTuple, gt: FiveTuple)
    requires TextOf(s.Show(f, gt)) == TextOf(s.Show(f, ft))
    ensures s.Show(f, gt) == s.Show(f, ft)
  {
    match s.Show(f, ft) {
      case Amount(n) => ItoaInjective(n, s.Show(f, gt).n);
      case Label(_) =>
    }
  }

  /** The texts of a packet's key fields, as a trace request gives them. */
  function KeyTexts(s: Scheme, ft: FiveTuple): map<Field, string> {
    map f | f in s.fields :: TextOf(s.Show(f, ft))
  }

  /** Whether a flow has these texts in these fields. */
  predicate HasTexts(id: FlowId, texts: map<Field, string>) {
    forall f :: f in texts ==> f in id.fields && TextOf(id.fields[f]) == texts[f]
  }

  /** A filter that gives the text of every key field singles out one flow. */
  lemma FullKeySinglesOut(s: Scheme, ft: FiveTuple, gt: FiveTuple, id: FlowId)
    requires id.fields == s.FieldsOf(gt)
    ensures HasTexts(id, KeyTexts(s, ft)) <==> s.FieldsOf(gt) == s.FieldsOf(ft)
  {
    if HasTexts(id, KeyTexts(s, ft)) {
      forall f | f in s.fields ensures s.Show(f, gt) == s.Show(f, ft) {
        assert f in KeyTexts(s, ft);
        ShownByItsText(s, f, ft, gt);
      }
    }
    if s.FieldsOf(gt) == s.FieldsOf(ft) {
      assert forall f :: f in s.fields ==> s.FieldsOf(ft)[f] == s.Show(f, ft);
    }
  }

  /** The trace filter for a packet's flow. */
  function TextFilter(s: Scheme, ft: FiveTuple): FlowId -> bool {
    id => HasTexts(id, KeyTexts(s, ft))
  }

  lemma {:induction false} FlowMatches(s: Scheme, h: seq<PacketInfo>, ft: FiveTuple, id: FlowId, k: string)
    requires s.Ok() && s.Known() && k in Replay(s, h) && id.fields == Replay(s, h)[k].fields
    ensures HasTexts(id, KeyTexts(s, ft)) <==> k == s.KeyOf(ft)
  {
    RecordsAreSummaries(s, h, k);
    KeyOfPart(s, h, k);
    var first := PacketsOf(s, h, k)[0];
    assert first in PacketsOf(s, h, k);
    KeyIsFields(s, first.fiveTuple, ft);
    FullKeySinglesOut(s, ft, first.fiveTuple, id);
  }

  /** In a snapshot of the traffic h the texts of all key fields single out one flow. */
  lemma {:induction false} OnlyThatFlow(s: Scheme, h: seq<PacketInfo>, ft: FiveTuple, task: string,
                                        m: map<string, Record>)
    requires s.Ok() && s.Known() && Within(m, Replay(s, h)) && s.KeyOf(ft) in m
    ensures Wanted(task, m, TextFilter(s, ft)) == {s.KeyOf(ft)}
  {
    forall k | k in m ensures TextFilter(s, ft)(FlowId(task, m[k].fields)) <==> k == s.KeyOf(ft) {
      assert NotAfter(m[k], Replay(s, h)[k]);
      FlowMatches(s, h, ft, FlowId(task, m[k].fields), k);
    }
  }

  lemma TracedAreMatching(s: Scheme, table: set<Row>, req: TraceFlowRequest, ft: FiveTuple, endTime: int)
    requires req.flowKeys == KeyTexts(s, ft) && req.endTime == Some(endTime)
    ensures forall r: Row :: r.task == req.taskName ==>
              (r in TracedRows(table, req) <==> r in table && r.timestamp <= endTime && TextFilter(s, ft)(IdOf(r)))
  {
  }

  lemma SelectsTraced(s: Scheme, snaps: seq<Snap>, endTime: int, table: set<Row>, req: TraceFlowRequest, ft: FiveTuple)
    requires WrittenUpTo(table, req.taskName, snaps, endTime)
    requires req.flowKeys == KeyTexts(s, ft) && req.endTime == Some(endTime)
    ensures Selects(TracedRows(table, req), req.taskName, snaps, TextFilter(s, ft))
  {
    TracedAreMatching(s, table, req, ft, endTime);
  }

  /** Bytes between those of a flow at two moments, as converted and, with no negative length, as plain lengths. */
  ghost predicate BytesBetween(bytes: nat, s: Scheme, span: Span, k: string) {
    var first, last := PacketsOf(s, span.before, k), PacketsOf(s, span.after, k);
    && SizeSum(first) <= bytes <= SizeSum(last)
    && (NoneNegative(span.after) ==> Lengths(first) <= bytes <= Lengths(last))
  }

  lemma {:induction false} BytesPlainly(bytes: nat, s: Scheme, span: Span, k: string)
    requires span.before <= span.after
    requires SizeSum(PacketsOf(s, span.before, k)) <= bytes <= SizeSum(PacketsOf(s, span.after, k))
    ensures BytesBetween(bytes, s, span, k)
  {
    FlowIsPlain(s, span.before, k);
    FlowIsPlain(s, span.after, k);
    assert forall p :: p in span.before ==> p in span.after;
  }

  lemma {:induction false} FlowIsPlain(s: Scheme, h: seq<PacketInfo>, k: string)
    ensures NoneNegative(h) ==> SizeSum(PacketsOf(s, h, k)) == Lengths(PacketsOf(s, h, k))
  {
    SizesAreLengths(PacketsOf(s, h, k));
    PartOf(s, h, k);
  }

  lemma {:induction false} PartOf(s: Scheme, h: seq<PacketInfo>, k: string)
    ensures forall p :: p in PacketsOf(s, h, k) ==> p in h
  {
    if h != [] {
      PartOf(s, h[..|h| - 1], k);
    }
  }

  /** What the trace of a flow has to be. */
  ghost predicate TraceWithin(l: Lifecycle, s: Scheme, span: Span, k: string) {
    var first, last := PacketsOf(s, span.before, k), PacketsOf(s, span.after, k);
    && |first| <= l.packets <= |last| && BytesBetween(l.bytes, s, span, k)
    && last != [] && l.firstSeen == last[0].timestamp / 1_000_000_000
  }

  /** End to end: tracing a flow by its full key up to a time, within one period, returns counters between
      those that had been counted for it when the last snapshot not after that time was asked for and when
      it returned, and the flow's first time stamp in whole seconds. */
  lemma {:induction false} TraceIsBetween(s: Scheme, spans: seq<Span>, snaps: seq<Snap>, endTime: int, table: set<Row>,
                                          req: TraceFlowRequest, ft: FiveTuple, l: Lifecycle)
    requires s.Ok() && s.Known() && AllBounded(s, spans, snaps) && Unbroken(spans, snaps)
    requires snaps != [] && WrittenUpTo(table, req.taskName, snaps, endTime)
    requires req.flowKeys == KeyTexts(s, ft) && req.endTime == Some(endTime)
    requires s.KeyOf(ft) in snaps[|snaps| - 1].flows && IsLifecycle(TracedRows(table, req), l)
    ensures TraceWithin(l, s, spans[|spans| - 1], s.KeyOf(ft))
  {
    SelectsTraced(s, snaps, endTime, table, req, ft);
    UnbrokenGrows(s, spans, snaps);
    TraceOfSnaps(s, spans, snaps, TracedRows(table, req), req.taskName, ft, l);
  }

  lemma {:induction false} TraceOfSnaps(s: Scheme, spans: seq<Span>, snaps: seq<Snap>, rows: set<Row>, task: string,
                                        ft: FiveTuple, l: Lifecycle)
    requires s.Ok() && s.Known() && snaps != [] && AllBounded(s, spans, snaps)
    requires forall a :: 0 <= a < |snaps| - 1 ==> Within(snaps[a].flows, snaps[|snaps| - 1].flows)
    requires Selects(rows, task, snaps, TextFilter(s, ft)) && forall r: Row :: r in rows ==> r.task == task
    requires IsLifecycle(rows, l) && s.KeyOf(ft) in snaps[|snaps| - 1].flows
    ensures TraceWithin(l, s, spans[|spans| - 1], s.KeyOf(ft))
  {
    LastRecord(s, spans, snaps, task, ft);
    TraceIsLatest(rows, task, snaps, TextFilter(s, ft), s.KeyOf(ft), l);
  }

  /** No fewer packets and bytes than these, as converted and, with no negative length, as plain lengths. */
  ghost predicate AtLeast(l: Lifecycle, own: seq<PacketInfo>) {
    |own| <= l.packets && SizeSum(own) <= l.bytes && (NoneNegative(own) ==> Lengths(own) <= l.bytes)
  }

  /** Over several periods the trace reports the peak: packets and bytes of the flow at the end of some period,
      and no less than at the end of any. */
  lemma TraceIsPeakOfPeriods(s: Scheme, spans: seq<Span>, snaps: seq<Snap>, ends: set<nat>, endTime: int,
                             table: set<Row>, req: TraceFlowRequest, ft: FiveTuple, l: Lifecycle)
    returns (p: nat, b: nat)
    requires s.Ok() && s.Known() && AllBounded(s, spans, snaps) && EndsPeriods(spans, ends)
    requires WrittenUpTo(table, req.taskName, snaps, endTime)
    requires req.flowKeys == KeyTexts(s, ft) && req.endTime == Some(endTime)
    requires IsLifecycle(TracedRows(table, req), l)
    ensures p in ends && b in ends && p < |spans| && b < |spans|
    ensures var k := s.KeyOf(ft);
            && |PacketsOf(s, spans[p].before, k)| <= l.packets <= |PacketsOf(s, spans[p].after, k)|
            && BytesBetween(l.bytes, s, spans[b], k)
    ensures forall e :: e in ends && e < |spans| ==> AtLeast(l, PacketsOf(s, spans[e].before, s.KeyOf(ft)))
  {
    var rows, task, k := TracedRows(table, req), req.taskName, s.KeyOf(ft);
    SelectsTraced(s, snaps, endTime, table, req, ft);
    PeriodsGrow(s, spans, snaps, ends);
    var packets, bytes, start := TraceIsPeak(rows, task, snaps, TextFilter(s, ft), ends, l);
    p, b := packets.0, bytes.0;
    EndIsOfFlow(s, spans, snaps, task, ft, ends, packets);
    EndIsOfFlow(s, spans, snaps, task, ft, ends, bytes);
    forall e | e in ends && e < |spans| ensures AtLeast(l, PacketsOf(s, spans[e].before, k)) {
      PeakAtEnd(s, spans, snaps, task, ft, ends, e, l);
    }
  }

  lemma {:induction false} EndIsOfFlow(s: Scheme, spans: seq<Span>, snaps: seq<Snap>, task: string, ft: FiveTuple,
                                       ends: set<nat>,
                                       at: (nat, string))
    requires s.Ok() && s.Known() && AllBounded(s, spans, snaps) && IsEnd(task, snaps, TextFilter(s, ft), ends, at)
    ensures at.1 == s.KeyOf(ft)
    ensures var r, span := snaps[at.0].flows[at.1], spans[at.0];
            && |PacketsOf(s, span.before, at.1)| <= r.packetCount <= |PacketsOf(s, span.after, at.1)|
            && BytesBetween(r.byteCount, s, span, at.1)
  {
    var span, m, k := spans[at.0], snaps[at.0].flows, at.1;
    assert Bounded(s, span, m);
    assert NotAfter(m[k], Replay(s, span.after)[k]);
    FlowMatches(s, span.after, ft, FlowId(task, m[k].fields), k);
    RecordBounds(s, span, k, m);
  }

  /** A flow that a period has not seen has no packets in it. */
  lemma {:induction false} PeakAtEnd(s: Scheme, spans: seq<Span>, snaps: seq<Snap>, task: string, ft: FiveTuple,
                                     ends: set<nat>, e: nat,
                                     l: Lifecycle)
    requires s.Ok() && s.Known() && AllBounded(s, spans, snaps) && e in ends && e < |spans|
    requires AtEnds(task, snaps, TextFilter(s, ft), ends, (r: Record) =>
               r.packetCount <= l.packets && r.byteCount <= l.bytes && r.startTime / SECOND >= l.firstSeen)
    ensures AtLeast(l, PacketsOf(s, spans[e].before, s.KeyOf(ft)))
  {
    var span, m, k := spans[e], snaps[e].flows, s.KeyOf(ft);
    assert Bounded(s, span, m);
    SizesAreLengths(PacketsOf(s, span.before, k));
    RecordsAreSummaries(s, span.before, k);
    if k in Replay(s, span.before) {
      assert NotAfter(Replay(s, span.before)[k], m[k]);
      OnlyThatFlow(s, span.after, ft, task, m);
      assert k in Wanted(task, m, TextFilter(s, ft));
      RecordBounds(s, span, k, m);
    }
  }

  lemma {:induction false} LastRecord(s: Scheme, spans: seq<Span>, snaps: seq<Snap>, task: string, ft: FiveTuple)
    requires s.Ok() && s.Known() && snaps != [] && AllBounded(s, spans, snaps)
    requires s.KeyOf(ft) in snaps[|snaps| - 1].flows
    ensures var k, span, m := s.KeyOf(ft), spans[|spans| - 1], snaps[|snaps| - 1].flows;
            var first, last := PacketsOf(s, span.before, k), PacketsOf(s, span.after, k);
            && Wanted(task, m, TextFilter(s, ft)) == {k}
            && |first| <= m[k].packetCount <= |last| && BytesBetween(m[k].byteCount, s, span, k)
            && last != [] && m[k].startTime == last[0].timestamp
  {
    var span, m := spans[|spans| - 1], snaps[|snaps| - 1].flows;
    assert Bounded(s, span, m);
    RecordBounds(s, span, s.KeyOf(ft), m);
    OnlyThatFlow(s, span.after, ft, task, m);
  }

  /** A record between two moments counts packets between those of the two. */
  lemma {:induction false} RecordBounds(s: Scheme, span: Span, k: string, m: map<string, Record>)
    requires Bounded(s, span, m) && k in m
    ensures var first, last := PacketsOf(s, span.before, k), PacketsOf(s, span.after, k);
            && |first| <= m[k].packetCount <= |last| && SizeSum(first) <= m[k].byteCount <= SizeSum(last)
            && BytesBetween(m[k].byteCount, s, span, k)
            && last != [] && m[k].startTime == last[0].timestamp
  {
    PrefixFits(span.before, span.after);
    assert NotAfter(m[k], Replay(s, span.after)[k]);
    ExactRecord(s, span.after, k);
    FlowIsPart(s, span.before, k);
    RecordsAreSummaries(s, span.before, k);
    if k in Replay(s, span.before) {
      assert NotAfter(Replay(s, span.before)[k], m[k]);
      ExactRecord(s, span.before, k);
    }
    BytesPlainly(m[k].byteCount, s, span, k);
  }

  lemma {:induction false} ExactRecord(s: Scheme, h: seq<PacketInfo>, k: string)
    requires Fits(h) && k in Replay(s, h)
    ensures var own, r := PacketsOf(s, h, k), Replay(s, h)[k];
            own != [] && r.packetCount == |own| && r.byteCount == SizeSum(own) && r.startTime == own[0].timestamp
  {
    RecordsAreSummaries(s, h, k);
    FlowIsPart(s, h, k);
    UnwrappedSummary(s, PacketsOf(s, h, k));
  }

  lemma {:induction false} UnwrappedSummary(s: Scheme, own: seq<PacketInfo>)
    requires own != [] && |own| < TWO_64 && SizeSum(own) < TWO_64
    ensures var r := Summary(s, own);
            r.packetCount == |own| && r.byteCount == SizeSum(own) && r.startTime == own[0].timestamp
  {
    SizesAreLengths(own);
  }

  /** And exactly those counted if no packet arrived during that snapshot. */
  lemma TraceIsTraffic(g: Aggregation, ws: seq<Window>, spans: seq<Span>, snaps: seq<Snap>, endTime: int,
                       table: set<Row>, req: TraceFlowRequest, ft: FiveTuple, l: Lifecycle)
    requires g.Ok() && g.scheme.Known() && g.TakesAll(ws, snaps, spans) && Unbroken(spans, snaps)
    requires snaps != [] && WrittenUpTo(table, req.taskName, snaps, endTime)
    requires req.flowKeys == KeyTexts(g.scheme, ft) && req.endTime == Some(endTime)
    requires g.scheme.KeyOf(ft) in snaps[|snaps| - 1].flows && IsLifecycle(TracedRows(table, req), l)
    requires forall e :: e in ws[|ws| - 1].events ==> !e.Arrive?
    ensures var own := PacketsOf(g.scheme, ws[|ws| - 1].before, g.scheme.KeyOf(ft));
            && l.packets == |own| && l.bytes == SizeSum(own) && (NoneNegative(own) ==> l.bytes == Lengths(own))
            && own != [] && l.firstSeen == own[0].timestamp / 1_000_000_000
  {
    var n := |ws| - 1;
    TakenAreBounded(g, ws, snaps, spans);
    TraceIsBetween(g.scheme, spans, snaps, endTime, table, req, ft, l);
    QuietSpan(g, ws[n], snaps[n], spans[n]);
    QuietTrace(l, g.scheme, spans[n], g.scheme.KeyOf(ft));
  }

  lemma {:induction false} QuietTrace(l: Lifecycle, s: Scheme, span: Span, k: string)
    requires TraceWithin(l, s, span, k) && span.after == span.before
    ensures var own := PacketsOf(s, span.before, k);
            && l.packets == |own| && l.bytes == SizeSum(own) && (NoneNegative(own) ==> l.bytes == Lengths(own))
            && own != [] && l.firstSeen == own[0].timestamp / 1_000_000_000
  {
    SizesAreLengths(PacketsOf(s, span.before, k));
  }

  // From the packets to the response.

  lemma {:induction false} SummaryOfWritten(gs: string -> Aggregation, writes: seq<Writing>, table: set<Row>,
                                            task: string, n: nat,
                                            endTime: int, inner: map<FlowId, Counters>, res: Result<seq<TaskSummary>>)
    requires AllComplete(gs, writes) && Stored(gs, writes, table) && gs(task).scheme.Known() && task != ""
    requires OnePeriod(WindowsOf(writes, task)) && CutAt(WindowsOf(writes, task), n, endTime) && n > 0
    requires Countable64(WindowsOf(writes, task)[n - 1])
    requires IsInner(RowsFor(table, ForTask(task, endTime)), inner) && Reported(res, inner)
    ensures OneSummaryWithin(res, task, gs(task).scheme, WindowsOf(writes, task)[n - 1].Covered())
  {
    RequestForTask(table, task, endTime);
    AggregateOfWritten(gs, writes, table, task, n, endTime, inner);
    var span := WindowsOf(writes, task)[n - 1].Covered();
    SummaryBetween(gs(task).scheme, span, task, RowsUntil(table, task, endTime), inner, res);
  }

  /** A packet had been processed, and the totals fit an int64. */
  predicate Countable64(w: Window) {
    w.before != [] && Fits63(w.After())
  }

  /** The snapshots of all tasks are written, each shard by shard, and then one task is asked for: unless the
      database fails, the response is one summary, with packets, bytes and flows between those processed when
      the task's last snapshot up to the end time was asked for and when it returned. */
  method WriteThenAggregate(gs: string -> Aggregation, writes: seq<Writing>,
                            database: (seq<Row>, seq<Clause>, seq<Arg>) -> Result<seq<TaskRow>>,
                            task: string, endTime: int, ghost n: nat)
    returns (res: Result<seq<TaskSummary>>)
    requires AllComplete(gs, writes) && gs(task).scheme.Known() && task != ""
    requires OnePeriod(WindowsOf(writes, task)) && CutAt(WindowsOf(writes, task), n, endTime) && n > 0
    requires Countable64(WindowsOf(writes, task)[n - 1])
    requires forall t, c, a :: database(t, c, a).Ok? ==> Answers(database(t, c, a).value, Chosen(RowSet(t), c, a))
    ensures (forall t, c, a :: database(t, c, a).Ok?) ==>
              OneSummaryWithin(res, task, gs(task).scheme, WindowsOf(writes, task)[n - 1].Covered())
  {
    var table := WriteAll(gs, writes);
    var answer := (c: seq<Clause>, a: seq<Arg>) => database(table, c, a);
    res := AggregateFlows(RowSet(table), answer, ForTask(task, endTime));
    if forall t, c, a :: database(t, c, a).Ok? {
      ghost var inner :| IsInner(RowsFor(RowSet(table), ForTask(task, endTime)), inner) && Reported(res, inner);
      SummaryOfWritten(gs, writes, RowSet(table), task, n, endTime, inner, res);
    }
  }

  lemma {:induction false} TraceOfWritten(gs: string -> Aggregation, writes: seq<Writing>, table: set<Row>, n: nat,
                                          endTime: int,
                                          req: TraceFlowRequest, ft: FiveTuple, l: Lifecycle)
    requires AllComplete(gs, writes) && Stored(gs, writes, table) && gs(req.taskName).scheme.Known()
    requires var ws := WindowsOf(writes, req.taskName);
             && OnePeriod(ws) && CutAt(ws, n, endTime) && n > 0
             && gs(req.taskName).scheme.KeyOf(ft) in Replay(gs(req.taskName).scheme, ws[n - 1].before)
    requires req.flowKeys == KeyTexts(gs(req.taskName).scheme, ft) && req.endTime == Some(endTime)
    requires IsAnswer(TracedRows(table, req), l)
    ensures var s := gs(req.taskName).scheme;
            TraceWithin(l, s, WindowsOf(writes, req.taskName)[n - 1].Covered(), s.KeyOf(ft))
  {
    var ws, snaps, spans := PeriodUpTo(gs, writes, table, req.taskName, n, endTime);
    TraceOfTaken(gs(req.taskName), ws, snaps, spans, WindowsOf(writes, req.taskName)[n - 1].Covered(), endTime, table,
                 req, ft, l);
  }

  lemma TraceOfTaken(g: Aggregation, ws: seq<Window>, snaps: seq<Snap>, spans: seq<Span>, last: Span, endTime: int,
                     table: set<Row>, req: TraceFlowRequest, ft: FiveTuple, l: Lifecycle)
    requires g.Ok() && g.scheme.Known() && g.TakesAll(ws, snaps, spans) && Unbroken(spans, snaps)
    requires snaps != [] && WrittenUpTo(table, req.taskName, snaps, endTime)
    requires req.flowKeys == KeyTexts(g.scheme, ft) && req.endTime == Some(endTime)
    requires last == spans[|spans| - 1] && g.scheme.KeyOf(ft) in Replay(g.scheme, last.before)
    requires IsAnswer(TracedRows(table, req), l)
    ensures TraceWithin(l, g.scheme, last, g.scheme.KeyOf(ft))
  {
    TakenAreBounded(g, ws, snaps, spans);
    TraceOfSeen(g.scheme, spans, snaps, endTime, table, req, ft, l);
  }

  lemma {:induction false} TraceOfSeen(s: Scheme, spans: seq<Span>, snaps: seq<Snap>, endTime: int, table: set<Row>,
                                       req: TraceFlowRequest, ft: FiveTuple, l: Lifecycle)
    requires s.Ok() && s.Known() && AllBounded(s, spans, snaps) && Unbroken(spans, snaps)
    requires snaps != [] && WrittenUpTo(table, req.taskName, snaps, endTime)
    requires req.flowKeys == KeyTexts(s, ft) && req.endTime == Some(endTime)
    requires s.KeyOf(ft) in Replay(s, spans[|spans| - 1].before) && IsAnswer(TracedRows(table, req), l)
    ensures TraceWithin(l, s, spans[|spans| - 1], s.KeyOf(ft))
  {
    SeenLast(s, spans, snaps, req.taskName, ft);
    SeenIsTraced(s, snaps, endTime, table, req, ft);
    TraceIsBetween(s, spans, snaps, endTime, table, req, ft, l);
  }

  lemma {:induction false} SeenLast(s: Scheme, spans: seq<Span>, snaps: seq<Snap>, task: string, ft: FiveTuple)
    requires s.Ok() && s.Known() && snaps != [] && AllBounded(s, spans, snaps)
    requires s.KeyOf(ft) in Replay(s, spans[|spans| - 1].before)
    ensures var m := snaps[|snaps| - 1].flows;
            s.KeyOf(ft) in m && s.KeyOf(ft) in Wanted(task, m, TextFilter(s, ft))
  {
    var n := |spans| - 1;
    assert Bounded(s, spans[n], snaps[n].flows);
    SeenIsWanted(s, spans[n], snaps[n].flows, task, ft);
  }

  lemma SeenIsTraced(s: Scheme, snaps: seq<Snap>, endTime: int, table: set<Row>, req: TraceFlowRequest, ft: FiveTuple)
    requires WrittenUpTo(table, req.taskName, snaps, endTime) && snaps != []
    requires req.flowKeys == KeyTexts(s, ft) && req.endTime == Some(endTime)
    requires s.KeyOf(ft) in Wanted(req.taskName, snaps[|snaps| - 1].flows, TextFilter(s, ft))
    ensures TracedRows(table, req) != {}
  {
    SelectsTraced(s, snaps, endTime, table, req, ft);
    RowIsSelected(TracedRows(table, req), req.taskName, snaps, TextFilter(s, ft), |snaps| - 1, s.KeyOf(ft));
  }

  lemma {:induction false} SeenIsWanted(s: Scheme, span: Span, m: map<string, Record>, task: string, ft: FiveTuple)
    requires s.Ok() && s.Known() && Bounded(s, span, m) && s.KeyOf(ft) in Replay(s, span.before)
    ensures s.KeyOf(ft) in m && s.KeyOf(ft) in Wanted(task, m, TextFilter(s, ft))
  {
    assert NotAfter(Replay(s, span.before)[s.KeyOf(ft)], m[s.KeyOf(ft)]);
    OnlyThatFlow(s, span.after, ft, task, m);
  }

  lemma TraceIsCountable(l: Lifecycle, s: Scheme, w: Window, k: string)
    requires TraceWithin(l, s, w.Covered(), k) && Countable64(w)
    ensures Countable(l)
  {
    FlowIsPart(s, w.After(), k);
    SizesAreLengths(w.After());
  }

  /** And tracing a flow that had been seen when the last snapshot up to the end time was asked for: unless the
      database fails, packets and bytes are between those counted for it then and when the snapshot returned,
      and the start is its first time stamp in whole seconds. */
  method WriteThenTrace(gs: string -> Aggregation, writes: seq<Writing>,
                        database: (seq<Row>, seq<Clause>, seq<Arg>) -> Result<Lifecycle>,
                        req: TraceFlowRequest, endTime: int, ghost n: nat, ghost ft: FiveTuple)
    returns (res: Result<Lifecycle>)
    requires AllComplete(gs, writes) && gs(req.taskName).scheme.Known()
    requires var ws := WindowsOf(writes, req.taskName);
             && OnePeriod(ws) && CutAt(ws, n, endTime) && n > 0 && Countable64(ws[n - 1])
             && gs(req.taskName).scheme.KeyOf(ft) in Replay(gs(req.taskName).scheme, ws[n - 1].before)
    requires req.flowKeys == KeyTexts(gs(req.taskName).scheme, ft) && req.endTime == Some(endTime)
    requires forall t, c, a :: database(t, c, a).Ok? ==> IsAnswer(Chosen(RowSet(t), c, a), database(t, c, a).value)
    ensures (forall t, c, a :: database(t, c, a).Ok?) ==>
              && res.Ok?
              && var s := gs(req.taskName).scheme;
                 TraceWithin(res.value, s, WindowsOf(writes, req.taskName)[n - 1].Covered(), s.KeyOf(ft))
  {
    var table := WriteAll(gs, writes);
    var answer := (c: seq<Clause>, a: seq<Arg>) => database(table, c, a);
    res := TraceFlow(RowSet(table), answer, req);
    if forall t, c, a :: database(t, c, a).Ok? {
      ghost var l :| IsAnswer(TracedRows(RowSet(table), req), l) && if Countable(l) then res == Ok(l) else res.Err?;
      TraceOfWritten(gs, writes, RowSet(table), n, endTime, req, ft, l);
      TraceIsCountable(l, gs(req.taskName).scheme, WindowsOf(writes, req.taskName)[n - 1],
                       gs(req.taskName).scheme.KeyOf(ft));
    }
  }
}
