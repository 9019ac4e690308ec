/** What the two sketches share (sketch.go and the tails of both HeavyHitters methods): a table of
    fingerprint counters, the point estimate over one cell per row, and the report of every flow
    that reaches a threshold. */
module HeavyHitters {
  import opened Words
  import opened VoteCounters

  /** HeavySize and HeavyCount: a reported flow with its estimate. */
  datatype Heavy = Heavy(flow: Key, value: uint32)

  /** The column of a flow in one row: its seeded digest modulo the width. */
  function Column(hash: (Key, uint32) -> uint32, seed: uint32, w: uint32): Key -> uint32
    requires w > 0
  {
    (f: Key) => hash(f, seed) % w
  }

  type Rows = seq<seq<Counter>>

  ghost predicate Fits(rows: Rows, columns: seq<Key -> uint32>) {
    |rows| == |columns| && forall i, f :: 0 <= i < |rows| ==> columns[i](f) < |rows[i]|
  }

  /** A row's answer for f: its counter when f is the fingerprint of its cell, otherwise 0. */
  function RowEstimate(row: seq<Counter>, column: Key -> uint32, f: Key): uint32
    requires column(f) < |row|
  {
    if row[column(f)].fp == f then row[column(f)].votes else 0
  }

  /** The running maximum of a query after one more cell. */
  function Improve(best: uint32, c: Counter, f: Key): uint32 {
    if c.fp == f then Max(best, c.votes) else best
  }

  /** The point estimate: the largest answer over the first n rows. */
  ghost function EstimateUpTo(rows: Rows, columns: seq<Key -> uint32>, f: Key, n: nat): uint32
    requires Fits(rows, columns) && n <= |rows|
  {
    if n == 0 then 0
    else Improve(EstimateUpTo(rows, columns, f, n - 1), rows[n - 1][columns[n - 1](f)], f)
  }

  lemma {:induction false} EstimateIsMax(rows: Rows, columns: seq<Key -> uint32>, f: Key, n: nat)
    requires Fits(rows, columns) && n <= |rows|
    ensures forall i :: 0 <= i < n ==> RowEstimate(rows[i], columns[i], f) <= EstimateUpTo(rows, columns, f, n)
    ensures EstimateUpTo(rows, columns, f, n) > 0 ==>
              exists i :: 0 <= i < n && EstimateUpTo(rows, columns, f, n) == RowEstimate(rows[i], columns[i], f)
  {
    if n > 0 {
      EstimateIsMax(rows, columns, f, n - 1);
      assert EstimateUpTo(rows, columns, f, n)
             == Max(EstimateUpTo(rows, columns, f, n - 1), RowEstimate(rows[n - 1], columns[n - 1], f));
    }
  }

  ghost function Estimate(rows: Rows, columns: seq<Key -> uint32>, f: Key): uint32
    requires Fits(rows, columns)
  {
    EstimateUpTo(rows, columns, f, |rows|)
  }

  /** Placement: a live cell holds a flow that its row sends to that very cell. */
  ghost predicate Placed(rows: Rows, columns: seq<Key -> uint32>)
    requires Fits(rows, columns)
  {
    forall i, j :: 0 <= i < |rows| && 0 <= j < |rows[i]| && rows[i][j].votes > 0
      ==> columns[i](rows[i][j].fp) == j
  }

  /** Cell (i, j) comes before cell (ri, rj) in the scan. */
  ghost predicate Before(i: int, j: int, ri: int, rj: int) {
    i < ri || (i == ri && j < rj)
  }

  /** m maps each fingerprint of a live cell scanned so far to its largest counter. */
  ghost predicate MaxMap(m: map<Key, uint32>, rows: Rows, ri: int, rj: int) {
    && (forall i, j :: 0 <= i < |rows| && 0 <= j < |rows[i]| && Before(i, j, ri, rj) && rows[i][j].votes > 0
          ==> rows[i][j].fp in m && rows[i][j].votes <= m[rows[i][j].fp])
    && (forall k :: k in m ==> m[k] > 0 && Scanned(Counter(k, m[k]), rows, ri, rj))
  }

  ghost predicate Scanned(c: Counter, rows: Rows, ri: int, rj: int) {
    exists i, j :: 0 <= i < |rows| && 0 <= j < |rows[i]| && Before(i, j, ri, rj) && rows[i][j] == c
  }

  /** One cell of the scan. */
  function Record(m: map<Key, uint32>, c: Counter): map<Key, uint32> {
    if c.votes == 0 then m
    else if c.fp in m then m[c.fp := Max(m[c.fp], c.votes)]
    else m[c.fp := c.votes]
  }

  lemma RecordKeepsMaxMap(m: map<Key, uint32>, rows: Rows, ri: nat, rj: nat)
    requires ri < |rows| && rj < |rows[ri]| && MaxMap(m, rows, ri, rj)
    ensures MaxMap(Record(m, rows[ri][rj]), rows, ri, rj + 1)
  {
    var n := Record(m, rows[ri][rj]);
    forall k | k in n ensures n[k] > 0 && Scanned(Counter(k, n[k]), rows, ri, rj + 1) {
      if k in m && n[k] == m[k] {
        assert Scanned(Counter(k, m[k]), rows, ri, rj);
      } else {
        assert rows[ri][rj] == Counter(k, n[k]);
      }
    }
  }

  lemma NextRowKeepsMaxMap(m: map<Key, uint32>, rows: Rows, ri: nat)
    requires ri < |rows| && MaxMap(m, rows, ri, |rows[ri]|)
    ensures MaxMap(m, rows, ri + 1, 0)
  {
    forall k | k in m ensures m[k] > 0 && Scanned(Counter(k, m[k]), rows, ri + 1, 0) {
      assert Scanned(Counter(k, m[k]), rows, ri, |rows[ri]|);
    }
  }

  /** A scan of the whole table finds the point estimate of every flow, and only that. */
  lemma ScanIsEstimate(m: map<Key, uint32>, rows: Rows, columns: seq<Key -> uint32>, f: Key)
    requires Fits(rows, columns) && Placed(rows, columns) && MaxMap(m, rows, |rows|, 0)
    ensures f in m <==> Estimate(rows, columns, f) > 0
    ensures f in m ==> m[f] == Estimate(rows, columns, f)
  {
    EstimateIsMax(rows, columns, f, |rows|);
    var e := Estimate(rows, columns, f);
    if e > 0 {
      var i :| 0 <= i < |rows| && e == RowEstimate(rows[i], columns[i], f);
      assert Before(i, columns[i](f), |rows|, 0);
      assert rows[i][columns[i](f)] == Counter(f, e);
    }
    if f in m {
      var i, j :| 0 <= i < |rows| && 0 <= j < |rows[i]| && rows[i][j] == Counter(f, m[f]);
      assert RowEstimate(rows[i], columns[i], f) == m[f];
    }
  }

  // The report.

  ghost predicate Descending(list: seq<Heavy>) {
    forall k, l :: 0 <= k < l < |list| ==> list[k].value >= list[l].value
  }

  ghost predicate Distinct(list: seq<Heavy>) {
    forall k, l :: 0 <= k < l < |list| ==> list[k].flow != list[l].flow
  }

  /** The list holds exactly the flows whose estimate reaches the threshold, each once, with that
      estimate, in non-increasing order. */
  ghost predicate IsReport(list: seq<Heavy>, threshold: uint32, rows: Rows, columns: seq<Key -> uint32>)
    requires Fits(rows, columns)
  {
    && Descending(list)
    && Distinct(list)
    && (forall k :: 0 <= k < |list| ==> list[k].value == Estimate(rows, columns, list[k].flow) >= threshold)
    && (forall f :: Estimate(rows, columns, f) >= threshold ==> Lists(list, f))
  }

  ghost predicate Lists(list: seq<Heavy>, f: Key) {
    exists k :: 0 <= k < |list| && list[k].flow == f
  }

  /** The entries of m that reach the threshold, collected in an arbitrary order. */
  method Collect(m: map<Key, uint32>, threshold: uint32) returns (list: seq<Heavy>)
    ensures Distinct(list)
    ensures forall k :: 0 <= k < |list| ==> list[k].flow in m && list[k].value == m[list[k].flow] >= threshold
    ensures forall f :: f in m && m[f] >= threshold ==> Lists(list, f)
  {
    list := [];
    var todo := m.Keys;
    while todo != {}
      invariant todo <= m.Keys
      invariant Distinct(list)
      invariant forall k :: 0 <= k < |list| ==>
                  list[k].flow in m.Keys - todo && list[k].value == m[list[k].flow] >= threshold
      invariant forall f :: f in m.Keys - todo && m[f] >= threshold ==> Lists(list, f)
    {
      var f :| f in todo;
      todo := todo - {f};
      if m[f] >= threshold {
        ghost var before := list;
        list := list + [Heavy(f, m[f])];
        assert list[|before|].flow == f;
        forall g | Lists(before, g) ensures Lists(list, g) {
          var k :| 0 <= k < |before| && before[k].flow == g;
          assert list[k].flow == g;
        }
      }
    }
  }

  /** Puts h in front of the first entry with a smaller value. */
  function InsertSorted(sorted: seq<Heavy>, h: Heavy): (r: seq<Heavy>) {
    if sorted == [] || sorted[0].value < h.value then [h] + sorted
    else [sorted[0]] + InsertSorted(sorted[1..], h)
  }

  lemma {:induction false} InsertSortedKeepsOrder(sorted: seq<Heavy>, h: Heavy)
    requires Descending(sorted)
    ensures var r := InsertSorted(sorted, h);
            Descending(r) && r != [] && (r[0] == h || (sorted != [] && r[0] == sorted[0]))
  {
    if sorted != [] && sorted[0].value >= h.value {
      InsertSortedKeepsOrder(sorted[1..], h);
    }
  }

  lemma {:induction false} InsertSortedKeepsEntries(sorted: seq<Heavy>, h: Heavy)
    ensures multiset(InsertSorted(sorted, h)) == multiset(sorted) + multiset{h}
  {
    if sorted != [] && sorted[0].value >= h.value {
      assert sorted == [sorted[0]] + sorted[1..];
      InsertSortedKeepsEntries(sorted[1..], h);
    }
  }

  /** The same entries in non-increasing order of value. */
  method SortDescending(list: seq<Heavy>) returns (sorted: seq<Heavy>)
    ensures multiset(sorted) == multiset(list)
    ensures Descending(sorted)
  {
    sorted := [];
    for i := 0 to |list|
      invariant multiset(sorted) == multiset(list[..i])
      invariant Descending(sorted)
    {
      assert list[..i + 1] == list[..i] + [list[i]];
      InsertSortedKeepsOrder(sorted, list[i]);
      InsertSortedKeepsEntries(sorted, list[i]);
      sorted := InsertSorted(sorted, list[i]);
    }
    assert list[..|list|] == list;
  }

  lemma TwiceInMultiset(s: seq<Heavy>, k: nat, l: nat)
    requires k < l < |s| && s[k] == s[l]
    ensures multiset(s)[s[k]] >= 2
  {
    assert s == s[..l] + s[l..];
    assert s[k] in s[..l] && s[l] in s[l..];
  }

  lemma ReorderKeepsEntries(list: seq<Heavy>, sorted: seq<Heavy>)
    requires multiset(sorted) == multiset(list) && Distinct(list)
    ensures Distinct(sorted)
    ensures forall h :: h in sorted <==> h in list
    ensures forall f :: Lists(list, f) ==> Lists(sorted, f)
  {
    forall h ensures h in sorted <==> h in list {
      assert h in sorted <==> h in multiset(sorted);
      assert h in list <==> h in multiset(list);
    }
    forall f | Lists(list, f) ensures Lists(sorted, f) {
      var k :| 0 <= k < |list| && list[k].flow == f;
      assert list[k] in sorted;
    }
    forall k, l | 0 <= k < l < |sorted| ensures sorted[k].flow != sorted[l].flow {
      if sorted[k].flow == sorted[l].flow {
        assert sorted[k] in list && sorted[l] in list;
        assert sorted[k] == sorted[l];
        MultiplicityOne(list, sorted[k]);
        TwiceInMultiset(sorted, k, l);
      }
    }
  }

  lemma {:induction false} MultiplicityOne(list: seq<Heavy>, h: Heavy)
    requires Distinct(list)
    ensures multiset(list)[h] <= 1
  {
    if list != [] {
      var rest, last := list[..|list| - 1], list[|list| - 1];
      assert list == rest + [last];
      MultiplicityOne(rest, h);
      if h == last {
        assert h !in rest;
      }
    }
  }

  /** m holds the estimate of every flow whose estimate is not 0. */
  ghost predicate EstimateMap(m: map<Key, uint32>, rows: Rows, columns: seq<Key -> uint32>)
    requires Fits(rows, columns)
  {
    && (forall f :: f in m ==> m[f] == Estimate(rows, columns, f))
    && (forall f :: Estimate(rows, columns, f) > 0 ==> f in m)
  }

  lemma ScanIsEstimateMap(m: map<Key, uint32>, rows: Rows, columns: seq<Key -> uint32>)
    requires Fits(rows, columns) && Placed(rows, columns) && MaxMap(m, rows, |rows|, 0)
    ensures EstimateMap(m, rows, columns)
  {
    forall f {
      ScanIsEstimate(m, rows, columns, f);
    }
  }

  /** Threshold filter and sort: exactly the report. */
  method Report(m: map<Key, uint32>, threshold: uint32, ghost rows: Rows, ghost columns: seq<Key -> uint32>)
    returns (list: seq<Heavy>)
    requires threshold > 0
    requires Fits(rows, columns) && EstimateMap(m, rows, columns)
    ensures IsReport(list, threshold, rows, columns)
  {
    var found := Collect(m, threshold);
    list := SortDescending(found);
    ReorderKeepsEntries(found, list);
    forall k | 0 <= k < |list| ensures list[k].flow in m && list[k].value == m[list[k].flow] >= threshold {
      assert list[k] in found;
    }
  }
}
