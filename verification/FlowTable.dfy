/** The append-only table of cumulative snapshots and the meaning of the two queries over it
    (writer_clickhouse.go, querier.go, doc/technology.md). */
module FlowTable {
  import opened Words
  import opened Packets
  import opened FlowTotals
  import opened SnapshotCut

  const SECOND: int := 1_000_000_000

  /** A record as the table keeps it: DateTime columns hold whole seconds, records nanoseconds. */
  function InSeconds(r: Record): Record {
    r.(startTime := r.startTime / SECOND, endTime := r.endTime / SECOND)
  }

  /** A row of flow_metrics, with the record in seconds; a key field that is not in the record is NULL. */
  datatype Row = Row(timestamp: int, task: string, record: Record)

  /** The row written for a record. */
  function RowOf(time: int, task: string, r: Record): Row {
    Row(time, task, InSeconds(r))
  }

  /** What the inner query groups by. */
  datatype FlowId = FlowId(task: string, fields: map<Field, Shown>)

  function IdOf(r: Row): FlowId {
    FlowId(r.task, r.record.fields)
  }

  /** One snapshot of a task as it is written. */
  datatype Snap = Snap(time: int, flows: map<string, Record>)

  // Writing.

  predicate RowOfView(r: Row, time: int, task: string, view: map<string, Record>) {
    exists k :: k in view && r == RowOf(time, task, view[k])
  }

  predicate RowOfShards(r: Row, time: int, task: string, shards: seq<map<string, Record>>, n: nat) {
    exists i :: 0 <= i < n && i < |shards| && RowOfView(r, time, task, shards[i])
  }

  lemma OneMoreShard(time: int, task: string, shards: seq<map<string, Record>>, n: nat)
    requires n < |shards|
    ensures forall r :: RowOfShards(r, time, task, shards, n + 1) <==>
                          RowOfShards(r, time, task, shards, n) || RowOfView(r, time, task, shards[n])
  {
  }

  /** The rows of the flows of one shard. */
  method AppendShard(batch: seq<Row>, time: int, task: string, view: map<string, Record>) returns (more: seq<Row>)
    ensures |more| == |batch| + |view|
    ensures forall r :: r in more <==> r in batch || RowOfView(r, time, task, view)
  {
    more := batch;
    var todo := view.Keys;
    while todo != {}
      invariant todo <= view.Keys && |more| == |batch| + |view.Keys - todo|
      invariant forall r :: r in more <==>
                  r in batch || exists k :: k in view.Keys - todo && r == RowOf(time, task, view[k])
    {
      var k :| k in todo;
      assert view.Keys - (todo - {k}) == (view.Keys - todo) + {k};
      more := more + [RowOf(time, task, view[k])];
      todo := todo - {k};
    }
    assert view.Keys - todo == view.Keys;
  }

  /** Appends one row per flow of the snapshot; an empty snapshot writes nothing. */
  method Write(table: seq<Row>, time: int, task: string, shards: seq<map<string, Record>>) returns (after: seq<Row>)
    ensures |after| == |table| + TableSize(shards) && after[..|table|] == table
    ensures forall r :: r in after <==> r in table || RowOfShards(r, time, task, shards, |shards|)
  {
    var flowCount := 0;
    var i := 0;
    while i < |shards|
      invariant 0 <= i <= |shards| && flowCount == TableSize(shards[..i])
    {
      assert shards[..i + 1][..i] == shards[..i];
      flowCount := flowCount + |shards[i]|;
      i := i + 1;
    }
    assert shards[..i] == shards;
    if flowCount == 0 {
      NothingToWrite(shards);
      return table;
    }
    var batch: seq<Row> := [];
    i := 0;
    while i < |shards|
      invariant 0 <= i <= |shards| && |batch| == TableSize(shards[..i])
      invariant forall r :: r in batch <==> RowOfShards(r, time, task, shards, i)
    {
      assert shards[..i + 1][..i] == shards[..i];
      batch := AppendShard(batch, time, task, shards[i]);
      OneMoreShard(time, task, shards, i);
      i := i + 1;
    }
    assert shards[..i] == shards;
    after := table + batch;
  }

  lemma {:induction false} NothingToWrite(shards: seq<map<string, Record>>)
    requires TableSize(shards) == 0
    ensures forall i :: 0 <= i < |shards| ==> shards[i] == map[]
  {
    if shards != [] {
      NothingToWrite(shards[..|shards| - 1]);
    }
  }

  /** What a task's successive snapshots put into the table. */
  ghost function RowsOf(task: string, snaps: seq<Snap>): set<Row> {
    set a, k | 0 <= a < |snaps| && k in snaps[a].flows :: RowOf(snaps[a].time, task, snaps[a].flows[k])
  }

  /** Writing a snapshot whose shards split the plain map adds that snapshot's rows. */
  lemma WriteAddsSnap(before: set<Row>, after: set<Row>, task: string, snaps: seq<Snap>, next: Snap,
                      shards: seq<map<string, Record>>, route: string -> nat)
    requires Splits(shards, next.flows, route) && before == RowsOf(task, snaps)
    requires forall r :: r in after <==> r in before || RowOfShards(r, next.time, task, shards, |shards|)
    ensures after == RowsOf(task, snaps + [next])
  {
    var all := snaps + [next];
    assert forall a :: 0 <= a < |snaps| ==> all[a] == snaps[a];
    forall r ensures r in after <==> r in RowsOf(task, all) {
      if r in before {
        var a, k :| 0 <= a < |snaps| && k in snaps[a].flows && r == RowOf(snaps[a].time, task, snaps[a].flows[k]);
        assert all[a] == snaps[a];
      } else if r in after {
        var i :| 0 <= i < |shards| && RowOfView(r, next.time, task, shards[i]);
        var k :| k in shards[i] && r == RowOf(next.time, task, shards[i][k]);
        assert all[|snaps|] == next && k in next.flows;
      }
      if r in RowsOf(task, all) && r !in before {
        var a, k :| 0 <= a < |all| && k in all[a].flows && r == RowOf(all[a].time, task, all[a].flows[k]);
        assert RowOfView(r, next.time, task, shards[route(k)]);
        assert RowOfShards(r, next.time, task, shards, |shards|);
      }
    }
  }

  // The two-stage aggregation.

  /** argMax(_, Timestamp) may take its value from this row. */
  ghost predicate IsLatest(rows: set<Row>, id: FlowId, r: Row) {
    r in rows && IdOf(r) == id && forall q :: q in rows && IdOf(q) == id ==> q.timestamp <= r.timestamp
  }

  ghost function Ids(rows: set<Row>): set<FlowId> {
    set r | r in rows :: IdOf(r)
  }

  lemma {:induction false} LatestExists(rows: set<Row>, id: FlowId)
    requires id in Ids(rows)
    ensures exists r :: IsLatest(rows, id, r)
    decreases rows
  {
    var q :| q in rows && IdOf(q) == id;
    var rest := rows - {q};
    if id in Ids(rest) {
      LatestExists(rest, id);
      var r :| IsLatest(rest, id, r);
      assert rows == rest + {q};
      assert IsLatest(rows, id, if r.timestamp >= q.timestamp then r else q);
    } else {
      assert forall x :: x in rows && IdOf(x) == id ==> x == q || x in rest;
      assert IsLatest(rows, id, q);
    }
  }

  datatype Counters = Counters(packets: uint64, bytes: uint64)

  const PACKETS: Counters -> nat := (c: Counters) => c.packets
  const BYTES: Counters -> nat := (c: Counters) => c.bytes

  function CountersOf(r: Record): Counters {
    Counters(r.packetCount, r.byteCount)
  }

  /** Each counter comes from some latest row of the flow, and two latest rows may share the work. */
  ghost predicate MayPick(rows: set<Row>, id: FlowId, c: Counters) {
    && (exists r :: IsLatest(rows, id, r) && r.record.packetCount == c.packets)
    && (exists r :: IsLatest(rows, id, r) && r.record.byteCount == c.bytes)
  }

  /** A result that the inner query may have. */
  ghost predicate IsInner(rows: set<Row>, inner: map<FlowId, Counters>) {
    inner.Keys == Ids(rows) && forall id :: id in inner ==> MayPick(rows, id, inner[id])
  }

  ghost function SomeLatest(rows: set<Row>, id: FlowId): Row
    requires id in Ids(rows)
    ensures IsLatest(rows, id, SomeLatest(rows, id))
  {
    LatestExists(rows, id);
    var r :| IsLatest(rows, id, r);
    r
  }

  lemma InnerExists(rows: set<Row>) returns (inner: map<FlowId, Counters>)
    ensures IsInner(rows, inner)
  {
    inner := map id | id in Ids(rows) :: CountersOf(SomeLatest(rows, id).record);
    forall id | id in inner ensures MayPick(rows, id, inner[id]) {
      assert IsLatest(rows, id, SomeLatest(rows, id));
    }
  }

  ghost function OfTask(ids: set<FlowId>, task: string): set<FlowId> {
    set id | id in ids && id.task == task
  }

  /** A row of the outer query. */
  datatype TaskRow = TaskRow(task: string, bytes: uint64, packets: uint64, flows: nat)

  /** The outer query's row for a task, over a result of the inner one. */
  ghost function Summarize(inner: map<FlowId, Counters>, task: string): TaskRow {
    var ids := OfTask(inner.Keys, task);
    TaskRow(task, Wrap64(Sum(inner, ids, BYTES)), Wrap64(Sum(inner, ids, PACKETS)), |ids|)
  }

  // What the snapshots of one task look like.

  /** Different flows differ in a key field. */
  ghost predicate Distinguished(m: map<string, Record>) {
    forall k, l :: k in m && l in m && m[k].fields == m[l].fields ==> k == l
  }

  /** No snapshot has a later time than the last one. */
  ghost predicate InOrder(snaps: seq<Snap>) {
    forall a :: 0 <= a < |snaps| ==> snaps[a].time <= snaps[|snaps| - 1].time
  }

  ghost predicate Increasing(snaps: seq<Snap>) {
    forall a, b :: 0 <= a < b < |snaps| ==> snaps[a].time < snaps[b].time
  }

  /** rows holds, of one aggregation, exactly the rows of these snapshots that a filter on flows lets
      through. */
  ghost predicate Selects(rows: set<Row>, task: string, snaps: seq<Snap>, want: FlowId -> bool) {
    forall r: Row :: r.task == task ==> (r in rows <==> r in RowsOf(task, snaps) && want(IdOf(r)))
  }

  ghost function Wanted(task: string, m: map<string, Record>, want: FlowId -> bool): set<string> {
    set k | k in m && want(FlowId(task, m[k].fields))
  }

  /** What a snapshot says about the flows asked for. */
  ghost function SnapTotals(task: string, m: map<string, Record>, want: FlowId -> bool): TaskRow {
    var flows := Wanted(task, m, want);
    TaskRow(task, Wrap64(Sum(m, flows, BYTE_COUNT)), Wrap64(Sum(m, flows, PACKET_COUNT)), |flows|)
  }

  /** A flow of a snapshot at a time is still in the last one, and has the same counters there if the two
      snapshots have the same time. */
  ghost predicate SettledIn(r: Record, time: int, last: Snap) {
    exists l :: l in last.flows && last.flows[l].fields == r.fields
                && (time == last.time ==> CountersOf(last.flows[l]) == CountersOf(r))
  }

  ghost predicate Settled(task: string, snaps: seq<Snap>, want: FlowId -> bool)
    requires snaps != []
  {
    forall a, k :: 0 <= a < |snaps| && k in Wanted(task, snaps[a].flows, want) ==>
                     SettledIn(snaps[a].flows[k], snaps[a].time, snaps[|snaps| - 1])
  }

  lemma RowIsSelected(rows: set<Row>, task: string, snaps: seq<Snap>, want: FlowId -> bool, a: nat, k: string)
    requires Selects(rows, task, snaps, want) && a < |snaps| && k in Wanted(task, snaps[a].flows, want)
    ensures RowOf(snaps[a].time, task, snaps[a].flows[k]) in rows
  {
    var r := RowOf(snaps[a].time, task, snaps[a].flows[k]);
    assert r in RowsOf(task, snaps);
    assert IdOf(r) == FlowId(task, snaps[a].flows[k].fields);
  }

  lemma SelectedRow(rows: set<Row>, task: string, snaps: seq<Snap>, want: FlowId -> bool, r: Row)
    returns (a: nat, k: string)
    requires Selects(rows, task, snaps, want) && r in rows && r.task == task
    ensures a < |snaps| && k in Wanted(task, snaps[a].flows, want) && r == RowOf(snaps[a].time, task, snaps[a].flows[k])
  {
    assert r in RowsOf(task, snaps) && want(IdOf(r));
    var b: int, l :| 0 <= b < |snaps| && l in snaps[b].flows && r == RowOf(snaps[b].time, task, snaps[b].flows[l]);
    a, k := b, l;
  }

  /** A row of the last snapshot, or of another one at the same time, is a latest row of its flow. */
  lemma LastIsLatest(rows: set<Row>, task: string, snaps: seq<Snap>, want: FlowId -> bool, a: nat, k: string)
    requires Selects(rows, task, snaps, want) && InOrder(snaps) && a < |snaps|
    requires k in Wanted(task, snaps[a].flows, want) && snaps[a].time == snaps[|snaps| - 1].time
    ensures var r := RowOf(snaps[a].time, task, snaps[a].flows[k]); IsLatest(rows, IdOf(r), r)
  {
    var r := RowOf(snaps[a].time, task, snaps[a].flows[k]);
    RowIsSelected(rows, task, snaps, want, a, k);
    forall q | q in rows && IdOf(q) == IdOf(r) ensures q.timestamp <= r.timestamp {
      var b, l := SelectedRow(rows, task, snaps, want, q);
    }
  }

  /** The flows of the last snapshot by name. */
  ghost function Names(task: string, m: map<string, Record>, want: FlowId -> bool): set<FlowId> {
    set k | k in Wanted(task, m, want) :: FlowId(task, m[k].fields)
  }

  /** The flows asked for that are in an earlier snapshot and not in the last one. */
  ghost function Vanished(rows: set<Row>, task: string, snaps: seq<Snap>, want: FlowId -> bool): set<FlowId>
    requires snaps != []
  {
    OfTask(Ids(rows), task) - Names(task, snaps[|snaps| - 1].flows, want)
  }

  lemma {:induction false} SumRenamed<K, V, L, W>(m: map<K, V>, n: map<L, W>, keys: set<K>, ids: set<L>, name: K -> L,
                                                  column: V -> nat, other: W -> nat)
    requires keys <= m.Keys && ids <= n.Keys
    requires forall k :: k in keys ==> name(k) in ids && other(n[name(k)]) == column(m[k])
    requires forall k, l :: k in keys && l in keys && name(k) == name(l) ==> k == l
    requires forall id :: id in ids ==> exists k :: k in keys && name(k) == id
    ensures Sum(m, keys, column) == Sum(n, ids, other)
    decreases keys
  {
    if keys == {} {
      assert ids == {};
    } else {
      var k :| k in keys;
      SumTakesOut(m, keys, column, k);
      SumTakesOut(n, ids, other, name(k));
      SumRenamed(m, n, keys - {k}, ids - {name(k)}, name, column, other);
    }
  }

  lemma {:induction false} CountRenamed<K, L>(keys: set<K>, ids: set<L>, name: K -> L)
    requires forall k :: k in keys ==> name(k) in ids
    requires forall k, l :: k in keys && l in keys && name(k) == name(l) ==> k == l
    requires forall id :: id in ids ==> exists k :: k in keys && name(k) == id
    ensures |keys| == |ids|
    decreases keys
  {
    if keys == {} {
      assert ids == {};
    } else {
      var k :| k in keys;
      CountRenamed(keys - {k}, ids - {name(k)}, name);
    }
  }

  function NameIn(task: string, m: map<string, Record>): string -> FlowId {
    k => FlowId(task, if k in m then m[k].fields else map[])
  }

  /** Every answer has a flow for each flow of the last snapshot and one for each that vanished. */
  lemma FlowsOfAnswer(rows: set<Row>, task: string, snaps: seq<Snap>, want: FlowId -> bool)
    requires snaps != [] && Selects(rows, task, snaps, want) && Distinguished(snaps[|snaps| - 1].flows)
    ensures var names := Names(task, snaps[|snaps| - 1].flows, want);
            && names <= OfTask(Ids(rows), task) && |names| == |Wanted(task, snaps[|snaps| - 1].flows, want)|
            && |OfTask(Ids(rows), task)| == |names| + |Vanished(rows, task, snaps, want)|
  {
    var last := snaps[|snaps| - 1].flows;
    var names, ids := Names(task, last, want), OfTask(Ids(rows), task);
    CountRenamed(Wanted(task, last, want), names, NameIn(task, last));
    forall id | id in names ensures id in ids {
      var k :| k in Wanted(task, last, want) && id == FlowId(task, last[k].fields);
      RowIsSelected(rows, task, snaps, want, |snaps| - 1, k);
      assert IdOf(RowOf(snaps[|snaps| - 1].time, task, last[k])) == id;
    }
    assert ids == names + Vanished(rows, task, snaps, want);
  }

  /** The number of flows that the query reports, whatever ties do. */
  lemma ReportedFlows(rows: set<Row>, task: string, snaps: seq<Snap>, want: FlowId -> bool,
                      inner: map<FlowId, Counters>)
    requires snaps != [] && Selects(rows, task, snaps, want) && Distinguished(snaps[|snaps| - 1].flows)
    requires IsInner(rows, inner)
    ensures Summarize(inner, task).flows
            == SnapTotals(task, snaps[|snaps| - 1].flows, want).flows + |Vanished(rows, task, snaps, want)|
  {
    FlowsOfAnswer(rows, task, snaps, want);
  }

  lemma NothingVanished(rows: set<Row>, task: string, snaps: seq<Snap>, want: FlowId -> bool)
    requires snaps != [] && Selects(rows, task, snaps, want) && Settled(task, snaps, want)
    ensures OfTask(Ids(rows), task) <= Names(task, snaps[|snaps| - 1].flows, want)
  {
    var last := snaps[|snaps| - 1];
    forall id | id in OfTask(Ids(rows), task) ensures id in Names(task, last.flows, want) {
      var r :| r in rows && IdOf(r) == id;
      var a, k := SelectedRow(rows, task, snaps, want, r);
      assert SettledIn(snaps[a].flows[k], snaps[a].time, last);
      var l :| l in last.flows && last.flows[l].fields == snaps[a].flows[k].fields;
      assert l in Wanted(task, last.flows, want);
    }
  }

  /** inner has the counters of m for the flows asked for. */
  ghost predicate Matches(inner: map<FlowId, Counters>, task: string, m: map<string, Record>, want: FlowId -> bool) {
    forall k :: k in Wanted(task, m, want) ==>
                  FlowId(task, m[k].fields) in inner && inner[FlowId(task, m[k].fields)] == CountersOf(m[k])
  }

  /** Counters that agree flow by flow add up to the same. */
  lemma SameTotals(inner: map<FlowId, Counters>, task: string, last: map<string, Record>, want: FlowId -> bool)
    requires Distinguished(last) && OfTask(inner.Keys, task) == Names(task, last, want)
    requires Matches(inner, task, last, want)
    ensures Summarize(inner, task) == SnapTotals(task, last, want)
  {
    var flows, ids, name := Wanted(task, last, want), Names(task, last, want), NameIn(task, last);
    forall id | id in ids ensures exists k :: k in flows && name(k) == id {
      var k :| k in flows && id == FlowId(task, last[k].fields);
      assert name(k) == id;
    }
    CountRenamed(flows, ids, name);
    SumRenamed(last, inner, flows, ids, name, BYTE_COUNT, BYTES);
    SumRenamed(last, inner, flows, ids, name, PACKET_COUNT, PACKETS);
  }

  /** If all is settled every answer is the last snapshot. */
  lemma SettledAnswer(rows: set<Row>, task: string, snaps: seq<Snap>, want: FlowId -> bool,
                      inner: map<FlowId, Counters>)
    requires snaps != [] && InOrder(snaps) && Selects(rows, task, snaps, want)
    requires Distinguished(snaps[|snaps| - 1].flows) && Settled(task, snaps, want) && IsInner(rows, inner)
    ensures Summarize(inner, task) == SnapTotals(task, snaps[|snaps| - 1].flows, want)
  {
    FlowsOfAnswer(rows, task, snaps, want);
    NothingVanished(rows, task, snaps, want);
    AnswerMatches(rows, task, snaps, want, inner);
    SameTotals(inner, task, snaps[|snaps| - 1].flows, want);
  }

  lemma AnswerMatches(rows: set<Row>, task: string, snaps: seq<Snap>, want: FlowId -> bool,
                      inner: map<FlowId, Counters>)
    requires snaps != [] && InOrder(snaps) && Selects(rows, task, snaps, want)
    requires Distinguished(snaps[|snaps| - 1].flows) && Settled(task, snaps, want) && IsInner(rows, inner)
    ensures Matches(inner, task, snaps[|snaps| - 1].flows, want)
  {
    var last := snaps[|snaps| - 1].flows;
    forall k | k in Wanted(task, last, want)
      ensures FlowId(task, last[k].fields) in inner && inner[FlowId(task, last[k].fields)] == CountersOf(last[k])
    {
      BothMayBePicked(rows, task, snaps, want, |snaps| - 1, k);
      PickedFromLast(rows, task, snaps, want, inner[FlowId(task, last[k].fields)], k);
    }
  }

  lemma PickedFromLast(rows: set<Row>, task: string, snaps: seq<Snap>, want: FlowId -> bool, c: Counters, k: string)
    requires snaps != [] && InOrder(snaps) && Selects(rows, task, snaps, want)
    requires Distinguished(snaps[|snaps| - 1].flows) && Settled(task, snaps, want)
    requires k in Wanted(task, snaps[|snaps| - 1].flows, want)
    requires MayPick(rows, FlowId(task, snaps[|snaps| - 1].flows[k].fields), c)
    ensures c == CountersOf(snaps[|snaps| - 1].flows[k])
  {
    var n := |snaps| - 1;
    var last := snaps[n].flows;
    var id := FlowId(task, last[k].fields);
    LastIsLatest(rows, task, snaps, want, n, k);
    forall r | IsLatest(rows, id, r) ensures CountersOf(r.record) == CountersOf(last[k]) {
      var a, j := SelectedRow(rows, task, snaps, want, r);
      assert snaps[a].time == snaps[n].time;
      assert SettledIn(snaps[a].flows[j], snaps[a].time, snaps[n]);
    }
  }

  /** Another choice for one flow gives another sum, even modulo 2^64. */
  lemma OtherPickOtherSum(inner: map<FlowId, Counters>, ids: set<FlowId>, id: FlowId, c: Counters,
                          column: Counters -> nat)
    requires ids <= inner.Keys && id in ids && column(c) != column(inner[id])
    requires forall x: Counters :: column(x) < TWO_64
    ensures Wrap64(Sum(inner[id := c], ids, column)) != Wrap64(Sum(inner, ids, column))
  {
    var other := inner[id := c];
    SumTakesOut(inner, ids, column, id);
    SumTakesOut(other, ids, column, id);
    SumAgrees(inner, other, ids - {id}, column);
    WrapTellsApart(Sum(inner, ids - {id}, column), column(inner[id]), column(c));
  }

  lemma WrapTellsApart(rest: nat, x: uint64, y: uint64)
    requires x != y
    ensures Wrap64(x + rest) != Wrap64(y + rest)
  {
    var p, q := (x + rest) / TWO_64, (y + rest) / TWO_64;
    assert x - y == TWO_64 * (p - q) + (Wrap64(x + rest) - Wrap64(y + rest));
  }

  lemma PickedOtherwise(rows: set<Row>, inner: map<FlowId, Counters>, id: FlowId, c: Counters)
    requires IsInner(rows, inner) && id in inner && MayPick(rows, id, c)
    ensures IsInner(rows, inner[id := c]) && inner[id := c].Keys == inner.Keys
  {
    assert inner[id := c].Keys == inner.Keys;
  }

  lemma AnswersTellApart(rows: set<Row>, task: string, id: FlowId, c: Counters, e: Counters, t: TaskRow)
    requires id in Ids(rows) && id.task == task && MayPick(rows, id, c) && MayPick(rows, id, e)
    requires forall inner :: IsInner(rows, inner) ==> Summarize(inner, task) == t
    ensures c == e
  {
    var inner := InnerExists(rows);
    var ids := OfTask(inner.Keys, task);
    var one := inner[id := c];
    var two := one[id := e];
    PickedOtherwise(rows, inner, id, c);
    PickedOtherwise(rows, one, id, e);
    assert Summarize(one, task) == t && Summarize(two, task) == t;
    if c.packets != e.packets {
      OtherPickOtherSum(one, ids, id, e, PACKETS);
    }
    if c.bytes != e.bytes {
      OtherPickOtherSum(one, ids, id, e, BYTES);
    }
  }

  /** The flow of a snapshot that the last one still has. */
  lemma StillThere(rows: set<Row>, task: string, snaps: seq<Snap>, want: FlowId -> bool, a: nat, k: string)
    returns (l: string)
    requires snaps != [] && Selects(rows, task, snaps, want) && Vanished(rows, task, snaps, want) == {}
    requires a < |snaps| && k in Wanted(task, snaps[a].flows, want)
    ensures var last := snaps[|snaps| - 1].flows;
            l in Wanted(task, last, want) && last[l].fields == snaps[a].flows[k].fields
  {
    var r := RowOf(snaps[a].time, task, snaps[a].flows[k]);
    RowIsSelected(rows, task, snaps, want, a, k);
    assert IdOf(r) in OfTask(Ids(rows), task);
    assert IdOf(r) !in Vanished(rows, task, snaps, want);
    l :| l in Wanted(task, snaps[|snaps| - 1].flows, want)
         && IdOf(r) == FlowId(task, snaps[|snaps| - 1].flows[l].fields);
  }

  /** Two snapshots in one second are two answers. */
  lemma BothMayBePicked(rows: set<Row>, task: string, snaps: seq<Snap>, want: FlowId -> bool, a: nat, k: string)
    requires Selects(rows, task, snaps, want) && InOrder(snaps) && a < |snaps|
    requires k in Wanted(task, snaps[a].flows, want) && snaps[a].time == snaps[|snaps| - 1].time
    ensures MayPick(rows, FlowId(task, snaps[a].flows[k].fields), CountersOf(snaps[a].flows[k]))
    ensures FlowId(task, snaps[a].flows[k].fields) in Ids(rows)
  {
    LastIsLatest(rows, task, snaps, want, a, k);
    var r := RowOf(snaps[a].time, task, snaps[a].flows[k]);
    assert IsLatest(rows, IdOf(r), r) && r.record == InSeconds(snaps[a].flows[k]);
  }

  lemma SettledByAnswers(rows: set<Row>, task: string, snaps: seq<Snap>, want: FlowId -> bool)
    requires snaps != [] && InOrder(snaps) && Selects(rows, task, snaps, want)
    requires Distinguished(snaps[|snaps| - 1].flows)
    requires forall inner :: IsInner(rows, inner) ==>
               Summarize(inner, task) == SnapTotals(task, snaps[|snaps| - 1].flows, want)
    ensures Settled(task, snaps, want)
  {
    var n := |snaps| - 1;
    var last := snaps[n].flows;
    var inner := InnerExists(rows);
    ReportedFlows(rows, task, snaps, want, inner);
    assert Vanished(rows, task, snaps, want) == {};
    forall a, k | 0 <= a < |snaps| && k in Wanted(task, snaps[a].flows, want)
      ensures SettledIn(snaps[a].flows[k], snaps[a].time, snaps[n])
    {
      var l := StillThere(rows, task, snaps, want, a, k);
      if snaps[a].time == snaps[n].time {
        BothMayBePicked(rows, task, snaps, want, a, k);
        BothMayBePicked(rows, task, snaps, want, n, l);
        AnswersTellApart(rows, task, FlowId(task, last[l].fields), CountersOf(snaps[a].flows[k]),
                         CountersOf(last[l]), SnapTotals(task, last, want));
      }
    }
  }

  /** Reading back, for snapshots in any relation: the query is sure to return what the last selected
      snapshot says about the flows asked for exactly when each such flow of an earlier snapshot is
      still in the last one and, in a snapshot of the same second, had the same counters. */
  lemma ReadBackIff(rows: set<Row>, task: string, snaps: seq<Snap>, want: FlowId -> bool)
    requires snaps != [] && InOrder(snaps) && Selects(rows, task, snaps, want)
    requires Distinguished(snaps[|snaps| - 1].flows)
    ensures (forall inner :: IsInner(rows, inner) ==>
               Summarize(inner, task) == SnapTotals(task, snaps[|snaps| - 1].flows, want))
            <==> Settled(task, snaps, want)
  {
    if Settled(task, snaps, want) {
      forall inner | IsInner(rows, inner)
        ensures Summarize(inner, task) == SnapTotals(task, snaps[|snaps| - 1].flows, want)
      {
        SettledAnswer(rows, task, snaps, want, inner);
      }
    }
    if forall inner :: IsInner(rows, inner) ==>
         Summarize(inner, task) == SnapTotals(task, snaps[|snaps| - 1].flows, want)
    {
      SettledByAnswers(rows, task, snaps, want);
    }
  }

  /** The flow of a record is in a snapshot. */
  ghost predicate KeptIn(r: Record, m: map<string, Record>) {
    exists l :: l in m && m[l].fields == r.fields
  }

  /** With strictly increasing times only a flow that vanished, because of a reset, can do harm. */
  lemma SettledWhenIncreasing(task: string, snaps: seq<Snap>, want: FlowId -> bool)
    requires snaps != [] && Increasing(snaps)
    ensures InOrder(snaps)
    ensures Settled(task, snaps, want) <==>
              forall a, k :: 0 <= a < |snaps| - 1 && k in Wanted(task, snaps[a].flows, want) ==>
                               KeptIn(snaps[a].flows[k], snaps[|snaps| - 1].flows)
  {
    var n := |snaps| - 1;
    forall a, k | 0 <= a < |snaps| && k in Wanted(task, snaps[a].flows, want)
      ensures SettledIn(snaps[a].flows[k], snaps[a].time, snaps[n]) <==>
                a == n || KeptIn(snaps[a].flows[k], snaps[n].flows)
    {
    }
    if Settled(task, snaps, want) {
      forall a, k | 0 <= a < n && k in Wanted(task, snaps[a].flows, want)
        ensures KeptIn(snaps[a].flows[k], snaps[n].flows)
      {
        assert SettledIn(snaps[a].flows[k], snaps[a].time, snaps[n]);
      }
    }
  }

  /** Reading back across resets: at strictly increasing times the query returns what the last selected
      snapshot says exactly when no flow asked for has vanished since an earlier one. */
  lemma ReadBackAcrossResets(rows: set<Row>, task: string, snaps: seq<Snap>, want: FlowId -> bool)
    requires snaps != [] && Increasing(snaps) && Selects(rows, task, snaps, want)
    requires Distinguished(snaps[|snaps| - 1].flows)
    ensures (forall inner :: IsInner(rows, inner) ==>
               Summarize(inner, task) == SnapTotals(task, snaps[|snaps| - 1].flows, want))
            <==> forall a, k :: 0 <= a < |snaps| - 1 && k in Wanted(task, snaps[a].flows, want) ==>
                                  KeptIn(snaps[a].flows[k], snaps[|snaps| - 1].flows)
  {
    SettledWhenIncreasing(task, snaps, want);
    ReadBackIff(rows, task, snaps, want);
  }

  /** Snapshots that only grow, at strictly increasing times, are settled. */
  lemma GrowingIsSettled(task: string, snaps: seq<Snap>, want: FlowId -> bool)
    requires snaps != [] && Increasing(snaps)
    requires forall a :: 0 <= a < |snaps| - 1 ==> Within(snaps[a].flows, snaps[|snaps| - 1].flows)
    ensures Settled(task, snaps, want)
  {
    SettledWhenIncreasing(task, snaps, want);
  }

  /** Without rows of a task the answer has no row for it. */
  lemma NothingSelected(rows: set<Row>, task: string, want: FlowId -> bool)
    requires Selects(rows, task, [], want)
    ensures OfTask(Ids(rows), task) == {}
  {
    assert RowsOf(task, []) == {};
    assert forall r: Row :: r in rows ==> r.task != task;
  }

  // Tracing one flow.

  /** The row of min(StartTime), max(EndTime), max(PacketCount), max(ByteCount). */
  datatype Lifecycle = Lifecycle(firstSeen: int, lastSeen: int, packets: nat, bytes: nat)

  ghost predicate IsLifecycle(rows: set<Row>, l: Lifecycle) {
    && (forall r :: r in rows ==> l.firstSeen <= r.record.startTime && r.record.endTime <= l.lastSeen
                                  && r.record.packetCount <= l.packets && r.record.byteCount <= l.bytes)
    && (exists r :: r in rows && r.record.startTime == l.firstSeen)
    && (exists r :: r in rows && r.record.endTime == l.lastSeen)
    && (exists r :: r in rows && r.record.packetCount == l.packets)
    && (exists r :: r in rows && r.record.byteCount == l.bytes)
  }

  /** Something holds of the wanted flow in every snapshot that has it. */
  ghost predicate Always(task: string, snaps: seq<Snap>, want: FlowId -> bool, holds: Record -> bool) {
    forall a, k :: 0 <= a < |snaps| && k in Wanted(task, snaps[a].flows, want) ==> holds(snaps[a].flows[k])
  }

  /** The trace shows the flow's latest packet count, byte count, start and end, times in whole seconds,
      exactly when no snapshot had more packets, more bytes, an earlier start or a later end. */
  lemma TraceReadsLastIff(rows: set<Row>, task: string, snaps: seq<Snap>, want: FlowId -> bool, k: string, l: Lifecycle)
    requires snaps != [] && Selects(rows, task, snaps, want) && IsLifecycle(rows, l)
    requires forall r: Row :: r in rows ==> r.task == task
    requires k in Wanted(task, snaps[|snaps| - 1].flows, want)
    ensures var last := snaps[|snaps| - 1].flows[k];
            && (l.packets == last.packetCount <==> Always(task, snaps, want, NoMorePackets(last)))
            && (l.bytes == last.byteCount <==> Always(task, snaps, want, NoMoreBytes(last)))
            && (l.firstSeen == last.startTime / SECOND <==> Always(task, snaps, want, NoEarlier(last)))
            && (l.lastSeen == last.endTime / SECOND <==>
                Always(task, snaps, want, (r: Record) => r.endTime / SECOND <= last.endTime / SECOND))
            && l.packets >= last.packetCount && l.bytes >= last.byteCount
            && l.firstSeen <= last.startTime / SECOND && l.lastSeen >= last.endTime / SECOND
  {
    TraceBounds(rows, task, snaps, want, l);
    TraceAttained(rows, task, snaps, want, l);
    assert Covers(l, snaps[|snaps| - 1].flows[k]);
  }

  /** The trace is at least that of this record. */
  predicate Covers(l: Lifecycle, r: Record) {
    && r.packetCount <= l.packets && r.byteCount <= l.bytes
    && l.firstSeen <= r.startTime / SECOND && r.endTime / SECOND <= l.lastSeen
  }

  lemma TraceBounds(rows: set<Row>, task: string, snaps: seq<Snap>, want: FlowId -> bool, l: Lifecycle)
    requires Selects(rows, task, snaps, want) && IsLifecycle(rows, l)
    ensures forall a, k :: 0 <= a < |snaps| && k in Wanted(task, snaps[a].flows, want) ==> Covers(l, snaps[a].flows[k])
  {
    forall a, k | 0 <= a < |snaps| && k in Wanted(task, snaps[a].flows, want) ensures Covers(l, snaps[a].flows[k]) {
      RowIsSelected(rows, task, snaps, want, a, k);
      assert RowOf(snaps[a].time, task, snaps[a].flows[k]).record == InSeconds(snaps[a].flows[k]);
    }
  }

  /** Something holds of the wanted flow in some snapshot. */
  ghost predicate Once(task: string, snaps: seq<Snap>, want: FlowId -> bool, holds: Record -> bool) {
    exists a, k :: 0 <= a < |snaps| && k in Wanted(task, snaps[a].flows, want) && holds(snaps[a].flows[k])
  }

  lemma TraceAttained(rows: set<Row>, task: string, snaps: seq<Snap>, want: FlowId -> bool, l: Lifecycle)
    requires Selects(rows, task, snaps, want) && IsLifecycle(rows, l) && forall r: Row :: r in rows ==> r.task == task
    ensures Once(task, snaps, want, (r: Record) => r.packetCount == l.packets)
    ensures Once(task, snaps, want, (r: Record) => r.byteCount == l.bytes)
    ensures Once(task, snaps, want, (r: Record) => r.startTime / SECOND == l.firstSeen)
    ensures Once(task, snaps, want, (r: Record) => r.endTime / SECOND == l.lastSeen)
  {
    var p :| p in rows && p.record.packetCount == l.packets;
    var pa, pk := SelectedRow(rows, task, snaps, want, p);
    var b :| b in rows && b.record.byteCount == l.bytes;
    var ba, bk := SelectedRow(rows, task, snaps, want, b);
    var f :| f in rows && f.record.startTime == l.firstSeen;
    var fa, fk := SelectedRow(rows, task, snaps, want, f);
    var e :| e in rows && e.record.endTime == l.lastSeen;
    var ea, ek := SelectedRow(rows, task, snaps, want, e);
  }

  function NoMorePackets(last: Record): Record -> bool {
    (r: Record) => r.packetCount <= last.packetCount
  }

  function NoMoreBytes(last: Record): Record -> bool {
    (r: Record) => r.byteCount <= last.byteCount
  }

  function NoEarlier(last: Record): Record -> bool {
    (r: Record) => r.startTime / SECOND >= last.startTime / SECOND
  }

  // Periods.

  /** The snapshots that end a period: every other one grows into one of them, later or the same. */
  ghost predicate Periods(snaps: seq<Snap>, ends: set<nat>)
    requires snaps != []
  {
    && |snaps| - 1 in ends && (forall e :: e in ends ==> e < |snaps|)
    && forall a: nat :: a < |snaps| ==> GrowsInto(snaps, ends, a)
  }

  ghost predicate GrowsInto(snaps: seq<Snap>, ends: set<nat>, a: nat)
    requires a < |snaps|
  {
    exists e :: e in ends && a <= e < |snaps| && Within(snaps[a].flows, snaps[e].flows)
  }

  /** Something holds of the wanted flow at the end of every period that has it. */
  ghost predicate AtEnds(task: string, snaps: seq<Snap>, want: FlowId -> bool, ends: set<nat>, holds: Record -> bool) {
    forall e, k :: e in ends && e < |snaps| && k in Wanted(task, snaps[e].flows, want) ==> holds(snaps[e].flows[k])
  }

  /** What is passed back from a record to earlier ones of its flow need only be looked up at the ends. */
  lemma EndsSuffice(task: string, snaps: seq<Snap>, want: FlowId -> bool, ends: set<nat>, holds: Record -> bool)
    requires snaps != [] && Periods(snaps, ends)
    requires forall r, q: Record :: NotAfter(r, q) && holds(q) ==> holds(r)
    ensures Always(task, snaps, want, holds) <==> AtEnds(task, snaps, want, ends, holds)
  {
    if AtEnds(task, snaps, want, ends, holds) {
      forall a, k | 0 <= a < |snaps| && k in Wanted(task, snaps[a].flows, want) ensures holds(snaps[a].flows[k]) {
        assert GrowsInto(snaps, ends, a);
        var e :| e in ends && a <= e < |snaps| && Within(snaps[a].flows, snaps[e].flows);
        assert NotAfter(snaps[a].flows[k], snaps[e].flows[k]) && k in Wanted(task, snaps[e].flows, want);
      }
    }
  }

  /** Across resets: the trace shows the latest packets, bytes and start of the flow exactly when no earlier
      period ended with more packets, more bytes or an earlier start of it. */
  lemma TraceReadsLastPeriodIff(rows: set<Row>, task: string, snaps: seq<Snap>, want: FlowId -> bool, ends: set<nat>,
                                k: string, l: Lifecycle)
    requires snaps != [] && Periods(snaps, ends) && Selects(rows, task, snaps, want) && IsLifecycle(rows, l)
    requires forall r: Row :: r in rows ==> r.task == task
    requires k in Wanted(task, snaps[|snaps| - 1].flows, want)
    ensures var last := snaps[|snaps| - 1].flows[k];
            && (l.packets == last.packetCount <==> AtEnds(task, snaps, want, ends, NoMorePackets(last)))
            && (l.bytes == last.byteCount <==> AtEnds(task, snaps, want, ends, NoMoreBytes(last)))
            && (l.firstSeen == last.startTime / SECOND <==> AtEnds(task, snaps, want, ends, NoEarlier(last)))
  {
    var last := snaps[|snaps| - 1].flows[k];
    TraceReadsLastIff(rows, task, snaps, want, k, l);
    EndsSuffice(task, snaps, want, ends, NoMorePackets(last));
    EndsSuffice(task, snaps, want, ends, NoMoreBytes(last));
    EndsSuffice(task, snaps, want, ends, NoEarlier(last));
  }

  /** The trace is the peak of the periods: each of packets, bytes and start is that of the flow at the end of
      some period, and no period ended with more or an earlier start. */
  lemma TraceIsPeak(rows: set<Row>, task: string, snaps: seq<Snap>, want: FlowId -> bool, ends: set<nat>, l: Lifecycle)
    returns (packets: (nat, string), bytes: (nat, string), start: (nat, string))
    requires snaps != [] && Periods(snaps, ends) && Selects(rows, task, snaps, want) && IsLifecycle(rows, l)
    requires forall r: Row :: r in rows ==> r.task == task
    ensures IsEnd(task, snaps, want, ends, packets) && snaps[packets.0].flows[packets.1].packetCount == l.packets
    ensures IsEnd(task, snaps, want, ends, bytes) && snaps[bytes.0].flows[bytes.1].byteCount == l.bytes
    ensures IsEnd(task, snaps, want, ends, start) && snaps[start.0].flows[start.1].startTime / SECOND == l.firstSeen
    ensures AtEnds(task, snaps, want, ends, (r: Record) =>
              r.packetCount <= l.packets && r.byteCount <= l.bytes && r.startTime / SECOND >= l.firstSeen)
  {
    forall e, k | e in ends && e < |snaps| && k in Wanted(task, snaps[e].flows, want)
      ensures var r := snaps[e].flows[k];
              r.packetCount <= l.packets && r.byteCount <= l.bytes && r.startTime / SECOND >= l.firstSeen
    {
      RowIsSelected(rows, task, snaps, want, e, k);
      assert RowOf(snaps[e].time, task, snaps[e].flows[k]).record == InSeconds(snaps[e].flows[k]);
    }
    var p :| p in rows && p.record.packetCount == l.packets;
    packets := EndOf(rows, task, snaps, want, ends, p);
    var b :| b in rows && b.record.byteCount == l.bytes;
    bytes := EndOf(rows, task, snaps, want, ends, b);
    var f :| f in rows && f.record.startTime == l.firstSeen;
    start := EndOf(rows, task, snaps, want, ends, f);
  }

  predicate IsEnd(task: string, snaps: seq<Snap>, want: FlowId -> bool, ends: set<nat>, at: (nat, string)) {
    at.0 in ends && at.0 < |snaps| && at.1 in snaps[at.0].flows && want(FlowId(task, snaps[at.0].flows[at.1].fields))
  }

  /** The flow of a row at the end of its period. */
  lemma EndOf(rows: set<Row>, task: string, snaps: seq<Snap>, want: FlowId -> bool, ends: set<nat>, r: Row)
    returns (at: (nat, string))
    requires snaps != [] && Periods(snaps, ends) && Selects(rows, task, snaps, want) && r in rows && r.task == task
    ensures IsEnd(task, snaps, want, ends, at) && NotAfter(r.record, InSeconds(snaps[at.0].flows[at.1]))
  {
    var a, k := SelectedRow(rows, task, snaps, want, r);
    assert GrowsInto(snaps, ends, a);
    var e :| e in ends && a <= e < |snaps| && Within(snaps[a].flows, snaps[e].flows);
    assert NotAfter(snaps[a].flows[k], snaps[e].flows[k]);
    at := (e, k);
  }

  /** Within one period counters never go down, so the trace shows the latest ones. */
  lemma TraceIsLatest(rows: set<Row>, task: string, snaps: seq<Snap>, want: FlowId -> bool, k: string, l: Lifecycle)
    requires snaps != [] && Selects(rows, task, snaps, want) && IsLifecycle(rows, l)
    requires forall a :: 0 <= a < |snaps| - 1 ==> Within(snaps[a].flows, snaps[|snaps| - 1].flows)
    requires forall r: Row :: r in rows ==> r.task == task
    requires Wanted(task, snaps[|snaps| - 1].flows, want) == {k}
    ensures var last := snaps[|snaps| - 1].flows[k];
            l.packets == last.packetCount && l.bytes == last.byteCount && l.firstSeen == last.startTime / SECOND
  {
    var n := |snaps| - 1;
    forall a: nat | a < |snaps| ensures GrowsInto(snaps, {n}, a) {
      assert Within(snaps[a].flows, snaps[n].flows);
    }
    LatestOfOne(rows, task, snaps, want, k, l);
  }

  lemma LatestOfOne(rows: set<Row>, task: string, snaps: seq<Snap>, want: FlowId -> bool, k: string, l: Lifecycle)
    requires snaps != [] && Selects(rows, task, snaps, want) && IsLifecycle(rows, l)
    requires Periods(snaps, {|snaps| - 1}) && forall r: Row :: r in rows ==> r.task == task
    requires Wanted(task, snaps[|snaps| - 1].flows, want) == {k}
    ensures var last := snaps[|snaps| - 1].flows[k];
            l.packets == last.packetCount && l.bytes == last.byteCount && l.firstSeen == last.startTime / SECOND
  {
    assert k in Wanted(task, snaps[|snaps| - 1].flows, want);
    TraceReadsLastPeriodIff(rows, task, snaps, want, {|snaps| - 1}, k, l);
  }
}
