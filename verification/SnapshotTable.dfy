/** End to end: the snapshots of one aggregation, taken while packets arrive and between resets, their
    rows in the table, and what the aggregation query answers. */
module SnapshotTable {
  import opened Words
  import opened Packets
  import opened FlowTotals
  import opened SnapshotCut
  import opened FlowTable

  // Snapshots tell flows apart.

  lemma {:induction false} KeyOfPart(s: Scheme, h: seq<PacketInfo>, k: string)
    ensures forall p :: p in PacketsOf(s, h, k) ==> s.Known() && s.KeyOf(p.fiveTuple) == k
  {
    if h != [] {
      KeyOfPart(s, h[..|h| - 1], k);
    }
  }

  /** A task's flows differ in their key fields. */
  lemma {:induction false} ReplayIsDistinguished(s: Scheme, h: seq<PacketInfo>)
    requires s.Ok()
    ensures Distinguished(Replay(s, h))
  {
    var m := Replay(s, h);
    forall k, l | k in m && l in m && m[k].fields == m[l].fields ensures k == l {
      RecordsAreSummaries(s, h, k);
      RecordsAreSummaries(s, h, l);
      KeyOfPart(s, h, k);
      KeyOfPart(s, h, l);
      KeyIsFields(s, PacketsOf(s, h, k)[0].fiveTuple, PacketsOf(s, h, l)[0].fiveTuple);
    }
  }

  lemma {:induction false} SnapshotIsDistinguished(s: Scheme, h: seq<PacketInfo>, snapshot: map<string, Record>)
    requires s.Ok() && Within(snapshot, Replay(s, h))
    ensures Distinguished(snapshot)
  {
    ReplayIsDistinguished(s, h);
  }

  // A snapshot and its span.

  /** The packets that the shards hold when a snapshot is asked for, and these with the ones that arrive until
      it returns. */
  datatype Span = Span(before: seq<PacketInfo>, after: seq<PacketInfo>)

  /** A snapshot that lies between the two moments and tells flows apart. */
  ghost predicate Bounded(s: Scheme, span: Span, m: map<string, Record>) {
    && Fits(span.after) && span.before <= span.after && Distinguished(m)
    && Within(Replay(s, span.before), m) && Within(m, Replay(s, span.after))
  }

  ghost predicate AllBounded(s: Scheme, spans: seq<Span>, snaps: seq<Snap>) {
    |spans| == |snaps| && forall a :: 0 <= a < |spans| ==> Bounded(s, spans[a], snaps[a].flows)
  }

  /** A snapshot is asked for; packets arrive, shards are copied and emptied, in any order, until it returns;
      it is written under a time in seconds. */
  datatype Window = Window(before: seq<PacketInfo>, events: seq<Event>, time: int) {
    function After(): seq<PacketInfo> {
      before + Arrivals(events)
    }

    function Covered(): Span {
      Span(before, After())
    }
  }

  datatype Aggregation = Aggregation(scheme: Scheme, route: string -> nat, shards: nat) {
    ghost predicate Ok() {
      scheme.Ok() && forall k :: route(k) < shards
    }

    function Copies(w: Window): map<nat, map<string, Record>> {
      Run(scheme, route, w.before, w.events).copies
    }

    /** Every shard is copied, none is emptied before while it holds something, and no counter wraps around. */
    ghost predicate Complete(w: Window) {
      && Fits(w.After()) && Untorn(scheme, route, w.before, w.events)
      && forall i: nat :: i < shards ==> i in Copies(w)
    }

    /** What is written. */
    function ShardsOf(w: Window): seq<map<string, Record>>
      requires Complete(w)
    {
      Shards(Copies(w), shards)
    }

    function FlowsOf(w: Window): map<string, Record> {
      Merged(Copies(w), Replay(scheme, w.After()).Keys, route)
    }

    /** The snapshot of a window, as it is written, and its span. */
    ghost predicate Takes(w: Window, snap: Snap, span: Span) {
      Complete(w) && snap == Snap(w.time, FlowsOf(w)) && span == w.Covered()
    }

    ghost predicate TakesAll(ws: seq<Window>, snaps: seq<Snap>, spans: seq<Span>) {
      |ws| == |snaps| == |spans| && forall a :: 0 <= a < |ws| ==> Takes(ws[a], snaps[a], spans[a])
    }
  }

  /** A snapshot copied shard by shard under traffic lies in its span, whatever the interleaving. */
  lemma TakenIsBounded(g: Aggregation, w: Window, snap: Snap, span: Span)
    requires g.Ok() && g.Takes(w, snap, span)
    ensures Splits(g.ShardsOf(w), snap.flows, g.route)
    ensures Bounded(g.scheme, span, snap.flows)
  {
    SnapshotBetween(g.scheme, g.route, g.shards, w.before, w.events);
    SnapshotIsDistinguished(g.scheme, span.after, snap.flows);
  }

  lemma TakenAreBounded(g: Aggregation, ws: seq<Window>, snaps: seq<Snap>, spans: seq<Span>)
    requires g.Ok() && g.TakesAll(ws, snaps, spans)
    ensures AllBounded(g.scheme, spans, snaps)
  {
    forall a | 0 <= a < |spans| ensures Bounded(g.scheme, spans[a], snaps[a].flows) {
      TakenIsBounded(g, ws[a], snaps[a], spans[a]);
    }
  }

  /** Without packets during the snapshot its span is a single moment. */
  lemma {:induction false} NoArrivals(events: seq<Event>)
    requires forall e :: e in events ==> !e.Arrive?
    ensures Arrivals(events) == []
  {
    if events != [] {
      NoArrivals(events[..|events| - 1]);
      assert events[|events| - 1] in events;
    }
  }

  lemma QuietSpan(g: Aggregation, w: Window, snap: Snap, span: Span)
    requires g.Takes(w, snap, span) && forall e :: e in w.events ==> !e.Arrive?
    ensures span.after == span.before
  {
    NoArrivals(w.events);
  }

  const ALL: FlowId -> bool := id => true

  /** Totals between those at the call and those at the return of a snapshot. */
  ghost predicate Between(t: TaskRow, s: Scheme, span: Span) {
    && |span.before| <= t.packets <= |span.after|
    && SizeSum(span.before) <= t.bytes <= SizeSum(span.after)
    && |Replay(s, span.before)| <= t.flows <= |Replay(s, span.after)|
  }

  lemma TotalsWithin(task: string, low: map<string, Record>, m: map<string, Record>, high: map<string, Record>)
    requires Within(low, m) && Within(m, high)
    requires Whole(high, PACKET_COUNT) < TWO_64 && Whole(high, BYTE_COUNT) < TWO_64
    ensures var t := SnapTotals(task, m, ALL);
            && Whole(low, PACKET_COUNT) <= t.packets <= Whole(high, PACKET_COUNT)
            && Whole(low, BYTE_COUNT) <= t.bytes <= Whole(high, BYTE_COUNT)
            && |low| <= t.flows <= |high|
  {
    WithinTotals(low, m);
    WithinTotals(m, high);
    TotalsOfAll(task, m);
  }

  lemma TotalsOfAll(task: string, m: map<string, Record>)
    requires Whole(m, PACKET_COUNT) < TWO_64 && Whole(m, BYTE_COUNT) < TWO_64
    ensures SnapTotals(task, m, ALL) == TaskRow(task, Whole(m, BYTE_COUNT), Whole(m, PACKET_COUNT), |m|)
  {
    assert Wanted(task, m, ALL) == m.Keys;
    assert |m.Keys| == |m|;
  }

  lemma SnapshotTotals(s: Scheme, span: Span, m: map<string, Record>, task: string)
    requires s.Known() && Bounded(s, span, m)
    ensures Between(SnapTotals(task, m, ALL), s, span)
  {
    PrefixFits(span.before, span.after);
    ExactTotals(s, span.before);
    ExactTotals(s, span.after);
    TotalsWithin(task, Replay(s, span.before), m, Replay(s, span.after));
  }

  lemma {:induction false} PrefixFits(g: seq<PacketInfo>, h: seq<PacketInfo>)
    requires Fits(h) && g <= h
    ensures Fits(g) && SizeSum(g) <= SizeSum(h)
  {
    SizeSumOfPrefix(h, |g|);
    assert h[..|g|] == g;
  }

  // The table.

  /** Up to a time, a task's rows in the table are those of these snapshots. */
  ghost predicate WrittenUpTo(table: set<Row>, task: string, snaps: seq<Snap>, endTime: int) {
    forall r: Row :: r.task == task ==> (r in table && r.timestamp <= endTime <==> r in RowsOf(task, snaps))
  }

  /** The rows of a task with an end time. */
  ghost function RowsUntil(table: set<Row>, task: string, endTime: int): set<Row> {
    set r | r in table && r.task == task && r.timestamp <= endTime
  }

  /** If the task wrote these snapshots in order, those up to a time are the first so many. */
  lemma CutByTime(task: string, all: seq<Snap>, n: nat, endTime: int, table: set<Row>)
    requires n <= |all| && forall a :: 0 <= a < |all| ==> (all[a].time <= endTime <==> a < n)
    requires forall r: Row :: r.task == task ==> (r in table <==> r in RowsOf(task, all))
    ensures WrittenUpTo(table, task, all[..n], endTime)
  {
    forall r: Row | r.task == task ensures r in table && r.timestamp <= endTime <==> r in RowsOf(task, all[..n]) {
      if r in table && r.timestamp <= endTime {
        var a, k :| 0 <= a < |all| && k in all[a].flows && r == RowOf(all[a].time, task, all[a].flows[k]);
        assert all[..n][a] == all[a];
      }
      if r in RowsOf(task, all[..n]) {
        var a, k :| 0 <= a < n && k in all[..n][a].flows && r == RowOf(all[..n][a].time, task, all[..n][a].flows[k]);
        assert all[..n][a] == all[a];
      }
    }
  }

  lemma RowsUntilSelected(table: set<Row>, task: string, snaps: seq<Snap>, endTime: int)
    requires WrittenUpTo(table, task, snaps, endTime)
    ensures Selects(RowsUntil(table, task, endTime), task, snaps, ALL)
  {
  }

  /** End to end, with resets, traffic during snapshots and several snapshots a second: the aggregation
      query with an end time is sure to return the totals of the last snapshot not after it exactly when
      the snapshots up to it are settled. */
  lemma AggregateReadsLastIff(s: Scheme, spans: seq<Span>, snaps: seq<Snap>, endTime: int, task: string,
                              table: set<Row>)
    requires snaps != [] && InOrder(snaps) && AllBounded(s, spans, snaps) && WrittenUpTo(table, task, snaps, endTime)
    ensures (forall inner :: IsInner(RowsUntil(table, task, endTime), inner) ==>
               Summarize(inner, task) == SnapTotals(task, snaps[|snaps| - 1].flows, ALL))
            <==> Settled(task, snaps, ALL)
  {
    var n := |snaps| - 1;
    RowsUntilSelected(table, task, snaps, endTime);
    assert Bounded(s, spans[n], snaps[n].flows);
    ReadBackIff(RowsUntil(table, task, endTime), task, snaps, ALL);
  }

  lemma LastTotals(s: Scheme, spans: seq<Span>, snaps: seq<Snap>, task: string)
    requires s.Known() && snaps != [] && AllBounded(s, spans, snaps)
    ensures Distinguished(snaps[|snaps| - 1].flows)
    ensures Between(SnapTotals(task, snaps[|snaps| - 1].flows, ALL), s, spans[|spans| - 1])
  {
    SnapshotTotals(s, spans[|spans| - 1], snaps[|snaps| - 1].flows, task);
  }

  /** Then the answer lies between what had been processed since the last reset when that snapshot was
      asked for and when it returned. */
  lemma AggregateIsBetween(s: Scheme, spans: seq<Span>, snaps: seq<Snap>, endTime: int, task: string, table: set<Row>,
                           inner: map<FlowId, Counters>)
    requires snaps != [] && InOrder(snaps) && AllBounded(s, spans, snaps) && WrittenUpTo(table, task, snaps, endTime)
    requires s.Known() && Settled(task, snaps, ALL) && IsInner(RowsUntil(table, task, endTime), inner)
    ensures Between(Summarize(inner, task), s, spans[|spans| - 1])
  {
    RowsUntilSelected(table, task, snaps, endTime);
    LastTotals(s, spans, snaps, task);
    SettledAnswer(RowsUntil(table, task, endTime), task, snaps, ALL, inner);
  }

  /** The query over snapshots copied shard by shard while packets arrived: within one period the answer
      lies between what had been processed when the last of them was asked for and when it returned. */
  lemma AggregateUnderTraffic(g: Aggregation, ws: seq<Window>, snaps: seq<Snap>, spans: seq<Span>, endTime: int,
                              task: string, table: set<Row>, inner: map<FlowId, Counters>)
    requires g.Ok() && g.scheme.Known() && g.TakesAll(ws, snaps, spans) && Unbroken(spans, snaps)
    requires snaps != [] && WrittenUpTo(table, task, snaps, endTime) && IsInner(RowsUntil(table, task, endTime), inner)
    ensures Between(Summarize(inner, task), g.scheme, spans[|spans| - 1])
  {
    TakenAreBounded(g, ws, snaps, spans);
    UnbrokenIsSettled(g.scheme, spans, snaps, task, ALL);
    AggregateIsBetween(g.scheme, spans, snaps, endTime, task, table, inner);
  }

  /** And what had been processed if no packet arrived during that snapshot. */
  lemma AggregateIsTraffic(g: Aggregation, ws: seq<Window>, snaps: seq<Snap>, spans: seq<Span>, endTime: int,
                           task: string, table: set<Row>, inner: map<FlowId, Counters>)
    requires g.Ok() && g.scheme.Known() && g.TakesAll(ws, snaps, spans) && Unbroken(spans, snaps)
    requires snaps != [] && WrittenUpTo(table, task, snaps, endTime) && IsInner(RowsUntil(table, task, endTime), inner)
    requires forall e :: e in ws[|ws| - 1].events ==> !e.Arrive?
    ensures var done, t := ws[|ws| - 1].before, Summarize(inner, task);
            && t.packets == |done| && t.bytes == SizeSum(done) && t.flows == |g.scheme.Flows(done)|
            && (NoneNegative(done) ==> t.bytes == Lengths(done))
  {
    var n := |ws| - 1;
    AggregateUnderTraffic(g, ws, snaps, spans, endTime, task, table, inner);
    QuietSpan(g, ws[n], snaps[n], spans[n]);
    QuietTotals(Summarize(inner, task), g.scheme, spans[n]);
  }

  lemma QuietTotals(t: TaskRow, s: Scheme, span: Span)
    requires Between(t, s, span) && span.after == span.before
    ensures var done := span.before;
            && t.packets == |done| && t.bytes == SizeSum(done) && t.flows == |s.Flows(done)|
            && (NoneNegative(done) ==> t.bytes == Lengths(done))
  {
    SizesAreLengths(span.before);
    FlowsAreKeys(s, span.before);
  }

  // Within one period.

  /** Snapshots one after the other at strictly increasing times, without a reset. */
  ghost predicate Unbroken(spans: seq<Span>, snaps: seq<Snap>)
    requires |spans| == |snaps|
  {
    forall a: nat, b: nat :: a < b < |spans| ==> Follows(spans, snaps, a, b)
  }

  /** Snapshot b was asked for after a returned, in a later second and without a reset in between. */
  predicate Follows(spans: seq<Span>, snaps: seq<Snap>, a: nat, b: nat)
    requires a < b < |spans| == |snaps|
  {
    spans[a].after <= spans[b].before && snaps[a].time < snaps[b].time
  }

  lemma {:induction false} LaterHasMore(s: Scheme, g: seq<PacketInfo>, h: seq<PacketInfo>)
    requires Fits(h) && g <= h
    ensures Within(Replay(s, g), Replay(s, h))
  {
    forall k | k in Replay(s, g) ensures k in Replay(s, h) && NotAfter(Replay(s, g)[k], Replay(s, h)[k]) {
      assert h[..|g|] == g && h[..|h|] == h;
      RecordsOnlyGrow(s, h, |g|, |h|, k);
    }
  }

  /** Of two snapshots in one period the second has everything of the first, no earlier. */
  lemma SuccessiveSnapshotsGrow(s: Scheme, x: Span, m: map<string, Record>, y: Span, n: map<string, Record>)
    requires Bounded(s, x, m) && Bounded(s, y, n) && x.after <= y.before
    ensures Within(m, n)
  {
    PrefixFits(y.before, y.after);
    LaterHasMore(s, x.after, y.before);
  }

  lemma UnbrokenGrows(s: Scheme, spans: seq<Span>, snaps: seq<Snap>)
    requires AllBounded(s, spans, snaps) && Unbroken(spans, snaps) && snaps != []
    ensures forall a :: 0 <= a < |snaps| - 1 ==> Within(snaps[a].flows, snaps[|snaps| - 1].flows)
  {
    var n := |snaps| - 1;
    forall a | 0 <= a < n ensures Within(snaps[a].flows, snaps[n].flows) {
      assert Follows(spans, snaps, a, n);
      assert Bounded(s, spans[a], snaps[a].flows) && Bounded(s, spans[n], snaps[n].flows);
      SuccessiveSnapshotsGrow(s, spans[a], snaps[a].flows, spans[n], snaps[n].flows);
    }
  }

  /** Within one period everything is settled. */
  lemma UnbrokenIsSettled(s: Scheme, spans: seq<Span>, snaps: seq<Snap>, task: string, want: FlowId -> bool)
    requires AllBounded(s, spans, snaps) && Unbroken(spans, snaps) && snaps != []
    ensures InOrder(snaps) && Settled(task, snaps, want)
  {
    UnbrokenGrows(s, spans, snaps);
    forall a: nat, b: nat | a < b < |snaps| ensures snaps[a].time < snaps[b].time {
      assert Follows(spans, snaps, a, b);
    }
    GrowingIsSettled(task, snaps, want);
  }

  // Several periods.

  /** Snapshot a belongs to the period that snapshot e ends: it is e or was taken before it without a reset in
      between. */
  predicate Leads(spans: seq<Span>, a: nat, e: nat) {
    a <= e < |spans| && (a < e ==> spans[a].after <= spans[e].before)
  }

  ghost predicate EndsPeriods(spans: seq<Span>, ends: set<nat>) {
    && spans != [] && |spans| - 1 in ends && (forall e :: e in ends ==> e < |spans|)
    && forall a: nat :: a < |spans| ==> HasEnd(spans, ends, a)
  }

  ghost predicate HasEnd(spans: seq<Span>, ends: set<nat>, a: nat) {
    exists e :: e in ends && Leads(spans, a, e)
  }

  lemma PeriodsGrow(s: Scheme, spans: seq<Span>, snaps: seq<Snap>, ends: set<nat>)
    requires AllBounded(s, spans, snaps) && EndsPeriods(spans, ends)
    ensures Periods(snaps, ends)
  {
    forall a: nat | a < |snaps| ensures GrowsInto(snaps, ends, a) {
      assert HasEnd(spans, ends, a);
      var e :| e in ends && Leads(spans, a, e);
      LeadsGrows(s, spans, snaps, a, e);
    }
  }

  lemma LeadsGrows(s: Scheme, spans: seq<Span>, snaps: seq<Snap>, a: nat, e: nat)
    requires AllBounded(s, spans, snaps) && Leads(spans, a, e)
    ensures Within(snaps[a].flows, snaps[e].flows)
  {
    assert Bounded(s, spans[a], snaps[a].flows) && Bounded(s, spans[e], snaps[e].flows);
    if a < e {
      SuccessiveSnapshotsGrow(s, spans[a], snaps[a].flows, spans[e], snaps[e].flows);
    }
  }

  // The table of all tasks, as their snapshots are written one after the other.

  /** The snapshot of a window is written for a task. */
  datatype Writing = Writing(task: string, window: Window)

  function WindowsOf(writes: seq<Writing>, task: string): seq<Window> {
    if writes == [] then []
    else
      var rest := WindowsOf(writes[..|writes| - 1], task);
      if writes[|writes| - 1].task == task then rest + [writes[|writes| - 1].window] else rest
  }

  function SnapsOf(g: Aggregation, ws: seq<Window>): seq<Snap> {
    seq(|ws|, a requires 0 <= a < |ws| => Snap(ws[a].time, g.FlowsOf(ws[a])))
  }

  function SpansOf(ws: seq<Window>): seq<Span> {
    seq(|ws|, a requires 0 <= a < |ws| => ws[a].Covered())
  }

  function RowSet(table: seq<Row>): set<Row> {
    set r | r in table
  }

  ghost predicate AllComplete(gs: string -> Aggregation, writes: seq<Writing>) {
    forall i :: 0 <= i < |writes| ==> gs(writes[i].task).Ok() && gs(writes[i].task).Complete(writes[i].window)
  }

  /** Of every task the table has exactly the rows of its snapshots. */
  ghost predicate Stored(gs: string -> Aggregation, writes: seq<Writing>, table: set<Row>) {
    forall r: Row :: r in table <==> r in RowsOf(r.task, SnapsOf(gs(r.task), WindowsOf(writes, r.task)))
  }

  method WriteWindow(g: Aggregation, table: seq<Row>, w: Writing) returns (after: seq<Row>)
    requires g.Complete(w.window)
    ensures Adds(RowSet(table), RowSet(after), w.window.time, w.task, g.ShardsOf(w.window))
  {
    after := Write(table, w.window.time, w.task, g.ShardsOf(w.window));
  }

  /** Every window's shards are written in turn. */
  method WriteAll(gs: string -> Aggregation, writes: seq<Writing>) returns (table: seq<Row>)
    requires AllComplete(gs, writes)
    ensures Stored(gs, writes, RowSet(table))
  {
    table := [];
    var i := 0;
    while i < |writes|
      invariant 0 <= i <= |writes| && Stored(gs, writes[..i], RowSet(table))
    {
      var w := writes[i];
      var after := WriteWindow(gs(w.task), table, w);
      assert writes[..i + 1] == writes[..i] + [w];
      OneMoreWritten(gs, writes[..i], w, RowSet(table), RowSet(after));
      table := after;
      i := i + 1;
    }
    assert writes[..i] == writes;
  }

  /** after has the rows of these shards besides those of before. */
  ghost predicate Adds(before: set<Row>, after: set<Row>, time: int, task: string, shards: seq<map<string, Record>>) {
    forall r :: r in after <==> r in before || RowOfShards(r, time, task, shards, |shards|)
  }

  ghost function RowsOfTask(table: set<Row>, task: string): set<Row> {
    set r | r in table && r.task == task
  }

  lemma OwnRowsWritten(g: Aggregation, ws: seq<Window>, w: Window, task: string, before: set<Row>, after: set<Row>)
    requires g.Ok() && g.Complete(w) && before == RowsOf(task, SnapsOf(g, ws))
    requires Adds(before, after, w.time, task, g.ShardsOf(w))
    ensures after == RowsOf(task, SnapsOf(g, ws + [w]))
  {
    var next := Snap(w.time, g.FlowsOf(w));
    TakenIsBounded(g, w, next, w.Covered());
    assert SnapsOf(g, ws + [w]) == SnapsOf(g, ws) + [next];
    WriteAddsSnap(before, after, task, SnapsOf(g, ws), next, g.ShardsOf(w), g.route);
  }

  lemma OneMoreWritten(gs: string -> Aggregation, writes: seq<Writing>, w: Writing, before: set<Row>, after: set<Row>)
    requires Stored(gs, writes, before) && gs(w.task).Ok() && gs(w.task).Complete(w.window)
    requires Adds(before, after, w.window.time, w.task, gs(w.task).ShardsOf(w.window))
    ensures Stored(gs, writes + [w], after)
  {
    var g, ws := gs(w.task), WindowsOf(writes, w.task);
    assert (writes + [w])[..|writes|] == writes;
    assert RowsOfTask(before, w.task) == RowsOf(w.task, SnapsOf(g, ws));
    OwnRowsWritten(g, ws, w.window, w.task, RowsOfTask(before, w.task), RowsOfTask(after, w.task));
    OthersUnwritten(before, after, w.window.time, w.task, g.ShardsOf(w.window));
    assert forall r :: r in after && r.task == w.task <==> r in RowsOfTask(after, w.task);
  }

  lemma OthersUnwritten(before: set<Row>, after: set<Row>, time: int, task: string, shards: seq<map<string, Record>>)
    requires Adds(before, after, time, task, shards)
    ensures forall r: Row :: r.task != task ==> (r in after <==> r in before)
  {
  }

  /** The windows in chronological order, without a reset in between. */
  ghost predicate OnePeriod(ws: seq<Window>) {
    Unbroken(SpansOf(ws), SnapTimes(ws))
  }

  function SnapTimes(ws: seq<Window>): seq<Snap> {
    seq(|ws|, a requires 0 <= a < |ws| => Snap(ws[a].time, map[]))
  }

  ghost predicate Chronological(ws: seq<Window>) {
    forall a, b :: 0 <= a < b < |ws| ==> ws[a].time <= ws[b].time
  }

  /** The first n windows are those up to a time. */
  ghost predicate CutAt(ws: seq<Window>, n: nat, endTime: int) {
    n <= |ws| && forall a :: 0 <= a < |ws| ==> (ws[a].time <= endTime <==> a < n)
  }

  lemma {:induction false} FindCut(ws: seq<Window>, endTime: int) returns (n: nat)
    requires Chronological(ws)
    ensures CutAt(ws, n, endTime)
  {
    if ws == [] || ws[|ws| - 1].time <= endTime {
      n := |ws|;
    } else {
      n := FindCut(ws[..|ws| - 1], endTime);
      assert forall a :: 0 <= a < |ws| - 1 ==> ws[..|ws| - 1][a] == ws[a];
    }
  }

  lemma {:induction false} WindowsComplete(gs: string -> Aggregation, writes: seq<Writing>, task: string)
    requires AllComplete(gs, writes)
    ensures forall a :: 0 <= a < |WindowsOf(writes, task)| ==> gs(task).Complete(WindowsOf(writes, task)[a])
    ensures WindowsOf(writes, task) != [] ==> gs(task).Ok()
  {
    if writes != [] {
      WindowsComplete(gs, writes[..|writes| - 1], task);
    }
  }

  /** What has been written up to a time, and its bounds. */
  lemma {:induction false} StoredUpTo(gs: string -> Aggregation, writes: seq<Writing>, table: set<Row>, task: string,
                                      n: nat, endTime: int)
    requires AllComplete(gs, writes) && Stored(gs, writes, table) && CutAt(WindowsOf(writes, task), n, endTime)
    ensures var g, ws := gs(task), WindowsOf(writes, task)[..n];
            && WrittenUpTo(table, task, SnapsOf(g, ws), endTime)
            && g.TakesAll(ws, SnapsOf(g, ws), SpansOf(ws)) && (n > 0 ==> g.Ok())
  {
    var g, all := gs(task), WindowsOf(writes, task);
    WindowsComplete(gs, writes, task);
    assert SnapsOf(g, all)[..n] == SnapsOf(g, all[..n]);
    CutByTime(task, SnapsOf(g, all), n, endTime, table);
  }

  lemma OnePeriodUpTo(g: Aggregation, ws: seq<Window>, n: nat)
    requires OnePeriod(ws) && n <= |ws|
    ensures Unbroken(SpansOf(ws[..n]), SnapsOf(g, ws[..n])) && Chronological(ws)
  {
    forall a: nat, b: nat | a < b < |ws|
      ensures ws[a].After() <= ws[b].before && ws[a].time < ws[b].time
    {
      assert Follows(SpansOf(ws), SnapTimes(ws), a, b);
    }
    forall a: nat, b: nat | a < b < n ensures Follows(SpansOf(ws[..n]), SnapsOf(g, ws[..n]), a, b) {
      assert ws[..n][a] == ws[a] && ws[..n][b] == ws[b];
    }
  }

  /** The snapshots of a task that the table has up to a time, within one period. */
  lemma PeriodUpTo(gs: string -> Aggregation, writes: seq<Writing>, table: set<Row>, task: string, n: nat, endTime: int)
    returns (ws: seq<Window>, snaps: seq<Snap>, spans: seq<Span>)
    requires AllComplete(gs, writes) && Stored(gs, writes, table)
    requires OnePeriod(WindowsOf(writes, task)) && CutAt(WindowsOf(writes, task), n, endTime) && n > 0
    ensures gs(task).Ok() && gs(task).TakesAll(ws, snaps, spans) && Unbroken(spans, snaps)
    ensures WrittenUpTo(table, task, snaps, endTime)
    ensures snaps != [] && spans[|spans| - 1] == WindowsOf(writes, task)[n - 1].Covered()
  {
    var g := gs(task);
    ws := WindowsOf(writes, task)[..n];
    StoredUpTo(gs, writes, table, task, n, endTime);
    OnePeriodUpTo(g, WindowsOf(writes, task), n);
    snaps, spans := SnapsOf(g, ws), SpansOf(ws);
  }

  /** With resets and several snapshots in one second: the query is sure to return the totals of the task's last
      snapshot up to a time exactly when its snapshots up to then are settled. */
  lemma {:induction false} WrittenReadsLastIff(gs: string -> Aggregation, writes: seq<Writing>, table: set<Row>,
                                               task: string, n: nat,
                                               endTime: int)
    requires AllComplete(gs, writes) && Stored(gs, writes, table) && Chronological(WindowsOf(writes, task))
    requires CutAt(WindowsOf(writes, task), n, endTime) && n > 0
    ensures var snaps := SnapsOf(gs(task), WindowsOf(writes, task)[..n]);
            SureToAnswer(RowsUntil(table, task, endTime), task, SnapTotals(task, snaps[n - 1].flows, ALL))
            <==> Settled(task, snaps, ALL)
  {
    var ws, snaps, spans := TakenUpTo(gs, writes, table, task, n, endTime);
    TakenReadsLastIff(gs(task), ws, snaps, spans, endTime, task, table);
  }

  lemma TakenUpTo(gs: string -> Aggregation, writes: seq<Writing>, table: set<Row>, task: string, n: nat, endTime: int)
    returns (ws: seq<Window>, snaps: seq<Snap>, spans: seq<Span>)
    requires AllComplete(gs, writes) && Stored(gs, writes, table) && Chronological(WindowsOf(writes, task))
    requires CutAt(WindowsOf(writes, task), n, endTime) && n > 0
    ensures gs(task).Ok() && gs(task).TakesAll(ws, snaps, spans) && WrittenUpTo(table, task, snaps, endTime)
    ensures snaps == SnapsOf(gs(task), WindowsOf(writes, task)[..n]) && |snaps| == n && InOrder(snaps)
  {
    var g := gs(task);
    ws := WindowsOf(writes, task)[..n];
    StoredUpTo(gs, writes, table, task, n, endTime);
    InOrderUpTo(g, WindowsOf(writes, task), n);
    snaps, spans := SnapsOf(g, ws), SpansOf(ws);
  }

  /** Whatever the query picks, this is its row for the task. */
  ghost predicate SureToAnswer(rows: set<Row>, task: string, t: TaskRow) {
    forall inner :: IsInner(rows, inner) ==> Summarize(inner, task) == t
  }

  lemma TakenReadsLastIff(g: Aggregation, ws: seq<Window>, snaps: seq<Snap>, spans: seq<Span>, endTime: int,
                          task: string, table: set<Row>)
    requires g.Ok() && g.TakesAll(ws, snaps, spans) && WrittenUpTo(table, task, snaps, endTime)
    requires snaps != [] && InOrder(snaps)
    ensures SureToAnswer(RowsUntil(table, task, endTime), task, SnapTotals(task, snaps[|snaps| - 1].flows, ALL))
            <==> Settled(task, snaps, ALL)
  {
    TakenAreBounded(g, ws, snaps, spans);
    AggregateReadsLastIff(g.scheme, spans, snaps, endTime, task, table);
  }

  lemma InOrderUpTo(g: Aggregation, ws: seq<Window>, n: nat)
    requires Chronological(ws) && 0 < n <= |ws|
    ensures InOrder(SnapsOf(g, ws[..n]))
  {
  }

  /** From the packets to the answer: all that was written, in a table with the rows of other tasks, and the
      query up to a time. */
  lemma {:induction false} AggregateOfWritten(gs: string -> Aggregation, writes: seq<Writing>, table: set<Row>,
                                              task: string, n: nat,
                                              endTime: int, inner: map<FlowId, Counters>)
    requires AllComplete(gs, writes) && Stored(gs, writes, table) && gs(task).scheme.Known()
    requires OnePeriod(WindowsOf(writes, task)) && CutAt(WindowsOf(writes, task), n, endTime) && n > 0
    requires IsInner(RowsUntil(table, task, endTime), inner)
    ensures Between(Summarize(inner, task), gs(task).scheme, WindowsOf(writes, task)[n - 1].Covered())
  {
    var ws, snaps, spans := PeriodUpTo(gs, writes, table, task, n, endTime);
    AggregateUnderTraffic(gs(task), ws, snaps, spans, endTime, task, table, inner);
  }

  // What a reset, or a second snapshot in the same second, does to the answer.

  lemma {:induction false} ReplayOne(s: Scheme, p: PacketInfo)
    requires s.Known()
    ensures Replay(s, [p]) == map[s.KeyOf(p.fiveTuple) := Summary(s, [p])]
  {
    assert [] + [p] == [p];
    ReplayAppend(s, [], p);
    SummaryExtends(s, [], p);
  }

  lemma {:induction false} ReplayTwo(s: Scheme, p: PacketInfo, q: PacketInfo)
    requires s.Known() && s.KeyOf(p.fiveTuple) == s.KeyOf(q.fiveTuple)
    ensures Replay(s, [p, q]) == map[s.KeyOf(p.fiveTuple) := Summary(s, [p, q])]
  {
    assert [p] + [q] == [p, q];
    ReplayOne(s, p);
    ReplayAppend(s, [p], q);
    SummaryExtends(s, [p], q);
  }

  /** A packet of one flow, a snapshot, a reset, a packet of another flow, a snapshot: the query reports
      two flows where the last snapshot has one. */
  lemma {:induction false} VanishedFlowIsReported(s: Scheme, p: PacketInfo, q: PacketInfo, task: string, t: int,
                                                  inner: map<FlowId, Counters>)
    requires s.Ok() && s.Known() && s.KeyOf(p.fiveTuple) != s.KeyOf(q.fiveTuple)
    requires IsInner(RowsOf(task, [Snap(t, Replay(s, [p])), Snap(t + 1, Replay(s, [q]))]), inner)
    ensures Summarize(inner, task).flows == 2 && |Replay(s, [q])| == 1
  {
    var rows := RowsOf(task, [Snap(t, Replay(s, [p])), Snap(t + 1, Replay(s, [q]))]);
    var x, y := RowOf(t, task, Summary(s, [p])), RowOf(t + 1, task, Summary(s, [q]));
    ReplayOne(s, p);
    ReplayOne(s, q);
    TwoRows(task, Snap(t, Replay(s, [p])), Snap(t + 1, Replay(s, [q])), s.KeyOf(p.fiveTuple), s.KeyOf(q.fiveTuple));
    KeyIsFields(s, p.fiveTuple, q.fiveTuple);
    TwoFlows(x, y, inner);
  }

  lemma TwoFlows(x: Row, y: Row, inner: map<FlowId, Counters>)
    requires x.task == y.task && IdOf(x) != IdOf(y) && IsInner({x, y}, inner)
    ensures Summarize(inner, x.task).flows == 2
  {
    assert OfTask(inner.Keys, x.task) == {IdOf(x), IdOf(y)};
  }

  lemma TwoRows(task: string, first: Snap, second: Snap, k: string, l: string)
    requires first.flows.Keys == {k} && second.flows.Keys == {l}
    ensures RowsOf(task, [first, second])
            == {RowOf(first.time, task, first.flows[k]), RowOf(second.time, task, second.flows[l])}
  {
    var snaps := [first, second];
    assert snaps[0] == first && snaps[1] == second;
    forall r ensures r in RowsOf(task, snaps) <==>
        r == RowOf(first.time, task, first.flows[k]) || r == RowOf(second.time, task, second.flows[l])
    {
      if r == RowOf(first.time, task, first.flows[k]) {
        assert k in snaps[0].flows;
      }
      if r == RowOf(second.time, task, second.flows[l]) {
        assert l in snaps[1].flows;
      }
    }
  }

  /** Two snapshots of a flow in one second: the query may report either packet count. */
  lemma TieIsArbitrary(s: Scheme, p: PacketInfo, q: PacketInfo, task: string, t: int)
    returns (early: map<FlowId, Counters>, late: map<FlowId, Counters>)
    requires s.Ok() && s.Known() && s.KeyOf(p.fiveTuple) == s.KeyOf(q.fiveTuple)
    ensures var rows := RowsOf(task, [Snap(t, Replay(s, [p])), Snap(t, Replay(s, [p, q]))]);
            && IsInner(rows, early) && Summarize(early, task).packets == 1
            && IsInner(rows, late) && Summarize(late, task).packets == 2
  {
    var k := s.KeyOf(p.fiveTuple);
    var x, y := RowOf(t, task, Summary(s, [p])), RowOf(t, task, Summary(s, [p, q]));
    ReplayOne(s, p);
    ReplayTwo(s, p, q);
    TwoRows(task, Snap(t, Replay(s, [p])), Snap(t, Replay(s, [p, q])), k, k);
    assert x.record.packetCount == 1 && y.record.packetCount == 2;
    MayBeAnswered(x, y, x);
    MayBeAnswered(x, y, y);
    early, late := map[IdOf(x) := CountersOf(x.record)], map[IdOf(x) := CountersOf(y.record)];
  }

  lemma MayBeAnswered(x: Row, y: Row, r: Row)
    requires IdOf(x) == IdOf(y) && x.timestamp == y.timestamp && (r == x || r == y)
    ensures var inner := map[IdOf(x) := CountersOf(r.record)];
            && IsInner({x, y}, inner)
            && Summarize(inner, x.task) == TaskRow(x.task, r.record.byteCount, r.record.packetCount, 1)
  {
    var rows, inner := {x, y}, map[IdOf(x) := CountersOf(r.record)];
    assert Ids(rows) == {IdOf(x)};
    assert IsLatest(rows, IdOf(x), r);
    assert MayPick(rows, IdOf(x), CountersOf(r.record));
    OneFlowAnswer(inner, IdOf(x));
  }

  lemma OneFlowAnswer(inner: map<FlowId, Counters>, id: FlowId)
    requires inner.Keys == {id}
    ensures Summarize(inner, id.task) == TaskRow(id.task, inner[id].bytes, inner[id].packets, 1)
  {
    assert OfTask(inner.Keys, id.task) == {id};
    SumTakesOut(inner, {id}, BYTES, id);
    SumTakesOut(inner, {id}, PACKETS, id);
    assert {id} - {id} == {};
  }

  /** Two packets of a flow, a snapshot, a reset, one more packet, a snapshot: the trace goes on reporting
      the two. */
  lemma {:induction false} TraceKeepsOldPeak(s: Scheme, p: PacketInfo, q: PacketInfo, r: PacketInfo, task: string,
                                             t: int, l: Lifecycle)
    requires s.Ok() && s.Known()
    requires s.KeyOf(p.fiveTuple) == s.KeyOf(q.fiveTuple) == s.KeyOf(r.fiveTuple)
    requires IsLifecycle(RowsOf(task, [Snap(t, Replay(s, [p, q])), Snap(t + 1, Replay(s, [r]))]), l)
    ensures l.packets == 2 && Replay(s, [r])[s.KeyOf(r.fiveTuple)].packetCount == 1
  {
    var snaps := [Snap(t, Replay(s, [p, q])), Snap(t + 1, Replay(s, [r]))];
    var rows := RowsOf(task, snaps);
    var k := s.KeyOf(p.fiveTuple);
    ReplayTwo(s, p, q);
    ReplayOne(s, r);
    RowIsSelected(rows, task, snaps, ALL, 0, k);
    assert RowOf(t, task, snaps[0].flows[k]).record.packetCount == 2;
    var x :| x in rows && x.record.packetCount == l.packets;
    var a, j := SelectedRow(rows, task, snaps, ALL, x);
  }
}
