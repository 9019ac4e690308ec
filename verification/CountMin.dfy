/** The CountMin sketch (count_min.go), run by one goroutine at a time: in that case every
    compare-and-swap succeeds at its first attempt, so the retry loops run once. The interleaved
    case is module CountMinAtomics. The hash is an arbitrary function of key and seed. */
module CountMinSketch {
  import opened Words
  import opened VoteCounters
  import opened HeavyHitters

  const DEFAULT_WIDTH: uint32 := 0x10_0000
  const DEFAULT_DEPTH: uint32 := 3
  const DEFAULT_SIZE_THRESHOLD: uint32 := 512 * 1024
  const DEFAULT_COUNT_THRESHOLD: uint32 := 512

  datatype Bucket = Bucket(count: Counter, size: Counter)

  datatype HeavyRecord = HeavyRecord(size: seq<Heavy>, count: seq<Heavy>)

  /** The bucket after the packets routed to it. */
  ghost function BucketReplay(run: seq<Packet>, fs: nat): Bucket {
    Bucket(CountReplay(run, fs), SizeReplay(run, fs))
  }

  /** A counter above 0 holds a flow of the column it sits in. */
  lemma {:induction false} LiveCandidate(h: seq<Packet>, column: Key -> uint32, j: nat, fs: nat)
    requires Uniform(h, fs)
    ensures var run := Routed(h, column, j);
            && Uniform(run, fs)
            && (SizeReplay(run, fs).votes > 0 ==> column(SizeReplay(run, fs).fp) == j)
            && (CountReplay(run, fs).votes > 0 ==> column(CountReplay(run, fs).fp) == j)
  {
    if h != [] {
      var p := h[|h| - 1];
      LiveCandidate(h[..|h| - 1], column, j, fs);
      Append(Routed(h[..|h| - 1], column, j), fs, p, p.flow);
    }
  }

  class CountMin {
    const hash: (Key, uint32) -> uint32
    const w: uint32
    const d: uint32
    const fs: uint32
    const sizeThreshold: uint32
    const countThreshold: uint32
    const seed: seq<uint32>
    const table: array2<Bucket>
    /** The packets inserted since construction or the last Reset. */
    ghost var history: seq<Packet>

    ghost predicate Shaped() {
      && w > 0 && d > 0 && sizeThreshold > 0 && countThreshold > 0
      && |seed| == d && table.Length0 == d && table.Length1 == w
    }

    function ColumnOf(i: nat): Key -> uint32
      requires w > 0 && i < |seed|
    {
      Column(hash, seed[i], w)
    }

    /** The packets that row i sends to column j. */
    ghost function RunAt(i: nat, j: int): seq<Packet>
      requires w > 0 && i < |seed|
      reads this`history
    {
      Routed(history, ColumnOf(i), j)
    }

    /** Every bucket is what its own packets, replayed in order, make of it. */
    ghost predicate Valid()
      reads this`history, table
    {
      && Shaped()
      && forall i, j :: 0 <= i < d && 0 <= j < w ==> table[i, j] == BucketReplay(RunAt(i, j), fs)
    }

    /** The packets whose flow has the digest of f in row i, modulo the width: those that share its bucket. */
    ghost function Sharing(h: seq<Packet>, i: nat, f: Key): seq<Packet>
      requires w > 0 && i < |seed|
    {
      if h == [] then []
      else
        var p := h[|h| - 1];
        var rest := Sharing(h[..|h| - 1], i, f);
        if hash(p.flow, seed[i]) % w == hash(f, seed[i]) % w then rest + [p] else rest
    }

    /** Insert sends exactly these packets to the bucket of f. */
    lemma {:induction false} RunIsSharing(h: seq<Packet>, i: nat, f: Key)
      requires w > 0 && i < |seed|
      ensures Routed(h, ColumnOf(i), ColumnOf(i)(f)) == Sharing(h, i, f)
    {
      if h != [] {
        RunIsSharing(h[..|h| - 1], i, f);
      }
    }

    /** The bytes of f, three times over, less twice all the bytes that share its bucket in row i. */
    ghost function ByteFloor(f: Key, i: nat): int
      requires w > 0 && i < |seed|
      reads this`history
    {
      3 * BytesOf(history, f) - 2 * Bytes(Sharing(history, i, f))
    }

    /** The packets of f, twice over, less all the packets that share its bucket in row i. */
    ghost function PacketFloor(f: Key, i: nat): int
      requires w > 0 && i < |seed|
      reads this`history
    {
      2 * PacketsOf(history, f) - |Sharing(history, i, f)|
    }

    /** No byte counter that f can touch wraps around. */
    ghost predicate NoByteWrap(f: Key, i: nat)
      requires w > 0 && i < |seed|
      reads this`history
    {
      Bytes(Sharing(history, i, f)) < TWO_32
    }

    ghost function Columns(): seq<Key -> uint32>
      requires Shaped()
    {
      seq(d, i requires 0 <= i < d => ColumnOf(i))
    }

    ghost function SizeRows(): Rows
      requires Shaped()
      reads table
    {
      seq(d, i requires 0 <= i < d reads table => seq(w, j requires 0 <= j < w reads table => table[i, j].size))
    }

    ghost function CountRows(): Rows
      requires Shaped()
      reads table
    {
      seq(d, i requires 0 <= i < d reads table => seq(w, j requires 0 <= j < w reads table => table[i, j].count))
    }

    ghost function SizeEstimate(f: Key): uint32
      requires Shaped()
      reads table
    {
      Estimate(SizeRows(), Columns(), f)
    }

    ghost function CountEstimate(f: Key): uint32
      requires Shaped()
      reads table
    {
      Estimate(CountRows(), Columns(), f)
    }

    constructor (hash: (Key, uint32) -> uint32, width: uint32, depth: uint32, st: uint32, ct: uint32, fs: uint32,
                 random: nat -> uint32)
      ensures Valid() && fresh(table)
      ensures history == [] && this.hash == hash && this.fs == fs
      ensures forall k: nat :: k < d ==> seed[k] == random(k)
      ensures w == (if width == 0 then 1_048_576 else width) && d == (if depth == 0 then 3 else depth)
      ensures sizeThreshold == (if st == 0 then 524_288 else st)
      ensures countThreshold == (if ct == 0 then 512 else ct)
    {
      this.hash := hash;
      this.fs := fs;
      var columns := if width == 0 then DEFAULT_WIDTH else width;
      var rows := if depth == 0 then DEFAULT_DEPTH else depth;
      w, d := columns, rows;
      sizeThreshold := if st == 0 then DEFAULT_SIZE_THRESHOLD else st;
      countThreshold := if ct == 0 then DEFAULT_COUNT_THRESHOLD else ct;
      seed := seq(rows, (k: nat) => random(k));
      var empty := Bucket(Counter(Zeros(fs), 0), Counter(Zeros(fs), 0));
      table := new Bucket[rows, columns]((i, j) => empty);
      history := [];
    }

    /** One row of Insert: the bucket's byte counter, then its packet counter. */
    method UpdateBucket(i: nat, j: nat, flow: Key, size: uint32)
      requires i < table.Length0 && j < table.Length1
      modifies table
      ensures table[i, j] ==
                Bucket(CountUpdate(old(table[i, j]).count, flow), SizeUpdate(old(table[i, j]).size, flow, size))
      ensures forall r, c :: 0 <= r < table.Length0 && 0 <= c < table.Length1 && (r != i || c != j)
                ==> table[r, c] == old(table[r, c])
    {
      var current := table[i, j].size;
      if current.votes == 0 {
        table[i, j] := table[i, j].(size := Counter(CopyInto(current.fp, flow), size));
      } else if current.fp == flow {
        table[i, j] := table[i, j].(size := Counter(current.fp, Add32(current.votes, size)));
      } else if size > current.votes {
        table[i, j] := table[i, j].(size := Counter(CopyInto(current.fp, flow), size));
      } else {
        table[i, j] := table[i, j].(size := Counter(current.fp, current.votes - size));
      }

      var count := table[i, j].count;
      if count.votes == 0 {
        table[i, j] := table[i, j].(count := Counter(CopyInto(count.fp, flow), 1));
      } else if count.fp == flow {
        table[i, j] := table[i, j].(count := Counter(count.fp, Add32(count.votes, 1)));
      } else {
        var newC := count.votes - 1;
        table[i, j] := table[i, j].(count := Counter(if newC == 0 then CopyInto(count.fp, flow) else count.fp, newC));
      }
    }

    method Insert(flow: Key, elem: Key, size: uint32)
      requires Valid()
      modifies this`history, table
      ensures Valid()
      ensures history == old(history) + [Packet(flow, size)]
    {
      var i := 0;
      while i < d
        invariant 0 <= i <= d
        invariant history == old(history)
        invariant forall r, c :: 0 <= r < d && 0 <= c < w ==>
                    table[r, c] == if r < i && c == ColumnOf(r)(flow)
                                   then BucketReplay(RunAt(r, c) + [Packet(flow, size)], fs)
                                   else BucketReplay(RunAt(r, c), fs)
      {
        var j := ColumnOf(i)(flow);
        Append(RunAt(i, j), fs, Packet(flow, size), flow);
        UpdateBucket(i, j, flow, size);
        i := i + 1;
      }
      ghost var h := history;
      history := history + [Packet(flow, size)];
      assert history[..|h|] == h;
    }

    /** The packet estimate in the upper half, the byte estimate in the lower one; EstimateBounds says
        what they are worth. */
    method Query(flow: Key) returns (r: uint64)
      requires Shaped()
      ensures r / TWO_32 == CountEstimate(flow) && r % TWO_32 == SizeEstimate(flow)
    {
      var sz: uint32, ct: uint32 := 0, 0;
      ghost var sizes, counts, columns := SizeRows(), CountRows(), Columns();
      var i := 0;
      while i < d
        invariant 0 <= i <= d
        invariant sz == EstimateUpTo(sizes, columns, flow, i) && ct == EstimateUpTo(counts, columns, flow, i)
      {
        var bucket := table[i, ColumnOf(i)(flow)];
        assert sizes[i][columns[i](flow)] == bucket.size && counts[i][columns[i](flow)] == bucket.count;
        sz := Improve(sz, bucket.size, flow);
        ct := Improve(ct, bucket.count, flow);
        i := i + 1;
      }
      r := Pack(ct, sz);
    }

    lemma {:induction false} RowBounds(i: nat, f: Key)
      requires Valid() && i < d && Uniform(history, fs)
      ensures var sz := RowEstimate(SizeRows()[i], Columns()[i], f);
              sz <= BytesOf(history, f) && (NoByteWrap(f, i) ==> ByteFloor(f, i) <= sz)
      ensures var ct := RowEstimate(CountRows()[i], Columns()[i], f);
              ct <= PacketsOf(history, f) && (|history| < TWO_32 ==> PacketFloor(f, i) <= ct)
    {
      var run := RunAt(i, ColumnOf(i)(f));
      RunIsSharing(history, i, f);
      RoutedKeepsFlow(history, ColumnOf(i), f, fs);
      SizeNeverOverestimates(run, fs);
      CountNeverOverestimates(run, fs);
      if Bytes(run) < TWO_32 {
        SizeVote(run, fs, f);
      }
      if |history| < TWO_32 {
        CountVote(run, fs, f);
      }
    }

    /** max over rows of 3b - 2B <= byte estimate <= b, and max over rows of 2n - N <= packet estimate <= n. */
    lemma {:induction false} EstimateBounds(f: Key)
      requires Valid()
      ensures Uniform(history, fs) ==>
                SizeEstimate(f) <= BytesOf(history, f) && CountEstimate(f) <= PacketsOf(history, f)
      ensures Uniform(history, fs) ==>
                forall i :: 0 <= i < d && NoByteWrap(f, i) ==> ByteFloor(f, i) <= SizeEstimate(f)
      ensures Uniform(history, fs) && |history| < TWO_32 ==>
                forall i :: 0 <= i < d ==> PacketFloor(f, i) <= CountEstimate(f)
    {
      EstimateIsMax(SizeRows(), Columns(), f, d);
      EstimateIsMax(CountRows(), Columns(), f, d);
      if Uniform(history, fs) {
        forall i | 0 <= i < d {
          RowBounds(i, f);
        }
      }
    }

    /** In row i no other flow has the digest of f, modulo the width. */
    ghost predicate AloneInRow(f: Key, i: nat)
      requires w > 0 && i < |seed|
      reads this`history
    {
      forall p :: p in history && p.flow != f ==> hash(p.flow, seed[i]) % w != hash(f, seed[i]) % w
    }

    lemma {:induction false} SharingAlone(h: seq<Packet>, i: nat, f: Key)
      requires w > 0 && i < |seed|
      requires forall p :: p in h && p.flow != f ==> hash(p.flow, seed[i]) % w != hash(f, seed[i]) % w
      ensures Bytes(Sharing(h, i, f)) == BytesOf(h, f) && |Sharing(h, i, f)| == PacketsOf(h, f)
    {
      if h != [] {
        var init, p := h[..|h| - 1], h[|h| - 1];
        SharingAlone(init, i, f);
        Append(Sharing(init, i, f), fs, p, f);
      }
    }

    /** A flow that is alone with its digest in some row is answered exactly, as long as nothing wraps
        around. */
    lemma {:induction false} AloneIsExact(f: Key, i: nat)
      requires Valid() && Uniform(history, fs) && i < d && AloneInRow(f, i)
      ensures BytesOf(history, f) < TWO_32 ==> SizeEstimate(f) == BytesOf(history, f)
      ensures |history| < TWO_32 ==> CountEstimate(f) == PacketsOf(history, f)
    {
      EstimateBounds(f);
      FloorsAlone(f, i);
    }

    lemma {:induction false} FloorsAlone(f: Key, i: nat)
      requires w > 0 && i < |seed| && AloneInRow(f, i)
      ensures ByteFloor(f, i) == BytesOf(history, f) && PacketFloor(f, i) == PacketsOf(history, f)
      ensures NoByteWrap(f, i) <==> BytesOf(history, f) < TWO_32
    {
      SharingAlone(history, i, f);
    }

    /** A live counter's fingerprint was routed to its bucket. */
    lemma RunsArePlaced()
      requires Valid() && Uniform(history, fs)
      ensures Placed(SizeRows(), Columns()) && Placed(CountRows(), Columns())
    {
      forall i, j | 0 <= i < d && 0 <= j < w {
        LiveCandidate(history, ColumnOf(i), j, fs);
      }
    }

    /** The table scan: per fingerprint of a live counter, the largest counter. */
    method Scan() returns (sizeMap: map<Key, uint32>, countMap: map<Key, uint32>)
      requires Shaped()
      ensures MaxMap(sizeMap, SizeRows(), d, 0) && MaxMap(countMap, CountRows(), d, 0)
    {
      sizeMap, countMap := map[], map[];
      var i := 0;
      while i < d
        invariant 0 <= i <= d
        invariant MaxMap(sizeMap, SizeRows(), i, 0) && MaxMap(countMap, CountRows(), i, 0)
      {
        sizeMap, countMap := ScanRow(i, sizeMap, countMap);
        i := i + 1;
      }
    }

    method ScanRow(i: nat, sizes: map<Key, uint32>, counts: map<Key, uint32>)
      returns (sizeMap: map<Key, uint32>, countMap: map<Key, uint32>)
      requires Shaped() && i < d && MaxMap(sizes, SizeRows(), i, 0) && MaxMap(counts, CountRows(), i, 0)
      ensures MaxMap(sizeMap, SizeRows(), i + 1, 0) && MaxMap(countMap, CountRows(), i + 1, 0)
    {
      sizeMap, countMap := sizes, counts;
      ghost var sizeRows, countRows := SizeRows(), CountRows();
      var j := 0;
      while j < w
        invariant 0 <= j <= w
        invariant MaxMap(sizeMap, sizeRows, i, j) && MaxMap(countMap, countRows, i, j)
      {
        RecordKeepsMaxMap(sizeMap, sizeRows, i, j);
        RecordKeepsMaxMap(countMap, countRows, i, j);
        assert sizeRows[i][j] == table[i, j].size && countRows[i][j] == table[i, j].count;
        sizeMap := Record(sizeMap, table[i, j].size);
        countMap := Record(countMap, table[i, j].count);
        j := j + 1;
      }
      NextRowKeepsMaxMap(sizeMap, sizeRows, i);
      NextRowKeepsMaxMap(countMap, countRows, i);
    }

    /** Both metrics of the scan are the point estimates, so every flow at or above a threshold is
        reported once with its Query value; ReportGuarantee says what a report is worth. */
    method HeavyHitters() returns (record: HeavyRecord)
      requires Valid() && Uniform(history, fs)
      ensures IsReport(record.size, sizeThreshold, SizeRows(), Columns())
      ensures IsReport(record.count, countThreshold, CountRows(), Columns())
    {
      var sizeMap, countMap := Scan();
      RunsArePlaced();
      ScanIsEstimateMap(sizeMap, SizeRows(), Columns());
      ScanIsEstimateMap(countMap, CountRows(), Columns());
      var heavySizes := Report(sizeMap, sizeThreshold, SizeRows(), Columns());
      var heavyCounts := Report(countMap, countThreshold, CountRows(), Columns());
      record := HeavyRecord(heavySizes, heavyCounts);
    }

    /** A reported flow truly reached the threshold, and a flow whose guaranteed share in some row
        reaches the threshold is reported. */
    lemma {:induction false} ReportGuarantee(record: HeavyRecord, f: Key)
      requires Valid() && Uniform(history, fs)
      requires IsReport(record.size, sizeThreshold, SizeRows(), Columns())
      requires IsReport(record.count, countThreshold, CountRows(), Columns())
      ensures Lists(record.size, f) ==> BytesOf(history, f) >= sizeThreshold
      ensures Lists(record.count, f) ==> PacketsOf(history, f) >= countThreshold
      ensures (exists i :: 0 <= i < d && NoByteWrap(f, i) && ByteFloor(f, i) >= sizeThreshold) ==> Lists(record.size, f)
      ensures |history| < TWO_32 && (exists i :: 0 <= i < d && PacketFloor(f, i) >= countThreshold)
              ==> Lists(record.count, f)
    {
      EstimateBounds(f);
    }

    method Reset()
      requires Valid()
      modifies this`history, table
      ensures Valid() && history == []
    {
      var i := 0;
      while i < d
        invariant 0 <= i <= d
        invariant forall r, c :: 0 <= r < d && 0 <= c < w ==>
                    table[r, c] == if r < i then BucketReplay([], fs) else old(table[r, c])
      {
        var j := 0;
        while j < w
          invariant 0 <= j <= w
          invariant forall r, c :: 0 <= r < d && 0 <= c < w ==>
                      table[r, c] == if r < i || (r == i && c < j) then BucketReplay([], fs) else old(table[r, c])
        {
          var b := table[i, j];
          table[i, j] := Bucket(Counter(Zeros(|b.count.fp|), 0), Counter(Zeros(|b.size.fp|), 0));
          j := j + 1;
        }
        i := i + 1;
      }
      history := [];
    }
  }
}
