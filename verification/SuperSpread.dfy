/** The SuperSpread sketch (super_spread.go), run by one goroutine at a time. Random draws are
    arbitrary numbers in [0, 1), floats are exact reals, and the hash is an arbitrary function. */
module SuperSpreadSketch {
  import opened Words
  import opened VoteCounters
  import opened HeavyHitters
  import opened HyperLogLog

  datatype Observation = Observation(flow: Key, elem: Key)

  /** The observations since the last Reset and since construction, and whether there was a Reset. */
  datatype Past = Past(recent: seq<Observation>, ever: seq<Observation>, cleared: bool) {
    function Add(o: Observation): Past {
      Past(recent + [o], ever + [o], cleared)
    }
  }

  /** The bytes handed to the sampler: flow then element. */
  function Merge(o: Observation): Key {
    o.flow + o.elem
  }

  /** What a row's column j has been offered. */
  function Offered(h: seq<Observation>, column: Key -> uint32, j: int): seq<Key> {
    if h == [] then []
    else
      var o := h[|h| - 1];
      var rest := Offered(h[..|h| - 1], column, j);
      if column(o.flow) == j then rest + [Merge(o)] else rest
  }

  lemma {:induction false} OfferedToOwnColumn(h: seq<Observation>, column: Key -> uint32, o: Observation)
    requires o in h
    ensures Merge(o) in Offered(h, column, column(o.flow))
  {
    var rest, last := h[..|h| - 1], h[|h| - 1];
    assert h == rest + [last];
    if o != last {
      OfferedToOwnColumn(rest, column, o);
    }
  }

  lemma {:induction false} NothingOffered(h: seq<Observation>, column: Key -> uint32, j: int)
    ensures Offered(h, column, j) == [] <==> forall o :: o in h ==> column(o.flow) != j
  {
    if h != [] {
      NothingOffered(h[..|h| - 1], column, j);
      assert forall o :: o in h <==> o in h[..|h| - 1] || o == h[|h| - 1];
    }
  }

  function Ceil(x: real): int {
    -((-x).Floor)
  }

  /** int(math.Ceil(1 / p)); the conversion of an infinity is left arbitrary. */
  function AwardFor(p: real, ofInfinity: int): int {
    if p == 0.0 then ofInfinity else Ceil(1.0 / p)
  }

  /** randFloatValue >= pCU; with p == 0 the right-hand side is not a number and with a zero ceiling it
      is infinite, so the comparison is false. */
  predicate Skips(p: real, draw: real) {
    p != 0.0 && Ceil(1.0 / p) != 0 && draw >= 1.0 / p / Ceil(1.0 / p) as real
  }

  /** rand.Float64() < b^-val. */
  predicate Decays(b: real, val: nat, draw: real)
    requires b != 0.0
  {
    PowNonZero(b, val);
    draw < 1.0 / Pow(b, val)
  }

  /** One step of the award loop on a cell: claim it when empty, strengthen the own key, or decay another
      one with chance b^-value, which takes draw number n. */
  function AwardStep(b: real, random: nat -> real, n: nat, c: Counter, flow: Key): (Counter, nat)
    requires b != 0.0
  {
    if c.votes == 0 then (Counter(CopyInto(c.fp, flow), 1), n)
    else if c.fp == flow then (Counter(c.fp, Add32(c.votes, 1)), n)
    else (Counter(c.fp, if Decays(b, c.votes, random(n)) then c.votes - 1 else c.votes), n + 1)
  }

  /** The award loop: left steps, none if left is not positive. */
  function AwardRun(b: real, random: nat -> real, n: nat, c: Counter, flow: Key, left: int): (Counter, nat)
    requires b != 0.0
    decreases left
  {
    if left <= 0 then (c, n)
    else
      var (e, m) := AwardStep(b, random, n, c, flow);
      AwardRun(b, random, m, e, flow, left - 1)
  }

  /** The loop leaves the cell with the flow, at no more than the weight on top of what the flow had
      there, or with its former key, at no more than before. */
  lemma {:induction false} AwardRunBound(b: real, random: nat -> real, n: nat, c: Counter, flow: Key, left: int)
    requires b != 0.0 && |c.fp| == |flow|
    ensures var e := AwardRun(b, random, n, c, flow, left).0;
            && |e.fp| == |flow|
            && (e.votes > 0 ==>
                  if e.fp == flow then e.votes <= Max(left, 0) + (if c.fp == flow then c.votes else 0)
                  else e.fp == c.fp && e.votes <= c.votes)
    decreases left
  {
    if left > 0 {
      var (e, m) := AwardStep(b, random, n, c, flow);
      AwardRunBound(b, random, m, e, flow, left - 1);
    }
  }

  /** One award against another flow takes one draw, and one from the value if the draw, times b to the power
      of the value, is below 1. */
  lemma {:induction false} AwardAgainstOther(b: real, random: nat -> real, n: nat, c: Counter, flow: Key, y: real)
    requires b > 0.0 && c.votes > 0 && c.fp != flow && y == random(n) * Pow(b, c.votes)
    ensures y < 1.0 ==> AwardRun(b, random, n, c, flow, 1) == (Counter(c.fp, c.votes - 1), n + 1)
    ensures y >= 1.0 ==> AwardRun(b, random, n, c, flow, 1) == (c, n + 1)
  {
    DecayCondition(b, c.votes, random(n), Pow(b, c.votes), y);
    OneAward(b, random, n, c, flow);
  }

  lemma {:induction false} OneAward(b: real, random: nat -> real, n: nat, c: Counter, flow: Key)
    requires b != 0.0 && c.votes > 0 && c.fp != flow
    ensures AwardRun(b, random, n, c, flow, 1) ==
            (Counter(c.fp, if Decays(b, c.votes, random(n)) then c.votes - 1 else c.votes), n + 1)
  {
    var step := AwardStep(b, random, n, c, flow);
    assert AwardRun(b, random, step.1, step.0, flow, 0) == step;
  }

  lemma {:induction false} DecayCondition(b: real, val: nat, draw: real, x: real, y: real)
    requires b > 0.0 && x == Pow(b, val) && y == draw * x
    ensures Decays(b, val, draw) <==> y < 1.0
  {
    PowPositive(b, val);
    var q := 1.0 / x;
    InverseTimes(x, q);
    BelowInverse(draw, x, q);
    assert Decays(b, val, draw) <==> draw < q;
  }

  lemma InverseTimes(x: real, q: real)
    requires x > 0.0 && q == 1.0 / x
    ensures q * x == 1.0
  {
  }

  lemma BelowInverse(draw: real, x: real, q: real)
    requires x > 0.0 && q * x == 1.0
    ensures draw < q <==> draw * x < 1.0
  {
    if draw < q {
      SmallerProduct(draw, q, x, 1.0);
    } else if q < draw {
      LargerProduct(q, draw, x, 1.0);
    } else {
      EqualProduct(draw, q, x, 1.0);
    }
  }

  lemma EqualProduct(y: real, z: real, x: real, p: real)
    requires y == z && z * x == p
    ensures y * x == p
  {
  }

  lemma SmallerProduct(y: real, z: real, x: real, p: real)
    requires x > 0.0 && y < z && z * x == p
    ensures y * x < p
  {
    var gap := z - y;
    assert gap * x > 0.0;
    assert z * x == y * x + gap * x;
  }

  lemma LargerProduct(y: real, z: real, x: real, p: real)
    requires x > 0.0 && y < z && y * x == p
    ensures z * x > p
  {
    var gap := z - y;
    assert gap * x > 0.0;
    assert z * x == y * x + gap * x;
  }

  /** In a cell that is empty or the flow's own, the whole weight arrives, modulo 2^32, and no draw is used. */
  lemma {:induction false} AwardRunExact(b: real, random: nat -> real, n: nat, c: Counter, flow: Key, left: int)
    requires b != 0.0 && |c.fp| == |flow| && (c.votes == 0 || c.fp == flow)
    ensures var (e, m) := AwardRun(b, random, n, c, flow, left);
            && m == n && e.votes == (c.votes + Max(left, 0)) % TWO_32
            && (if left > 0 then e.fp == flow else e == c)
    decreases left
  {
    if left > 0 {
      var (e, m) := AwardStep(b, random, n, c, flow);
      assert e == Counter(flow, (c.votes + 1) % TWO_32) && m == n;
      AwardRunExact(b, random, m, e, flow, left - 1);
      WrapsTwice(c.votes + 1, left - 1);
    }
  }

  lemma WrapsTwice(a: nat, b: nat)
    ensures (a % TWO_32 + b) % TWO_32 == (a + b) % TWO_32
  {
  }

  /** What Insert does to a flow's cell once encode has returned p (-1 for a rejection), from draw n on. */
  function Settle(b: real, random: nat -> real, n: nat, c: Counter, flow: Key, p: real, ofInfinity: int): (Counter, nat)
    requires b != 0.0
  {
    if p == -1.0 then (c, n)
    else if Skips(p, random(n)) then (c, n + 1)
    else AwardRun(b, random, n + 1, c, flow, AwardFor(p, ofInfinity))
  }

  /** The weight that Settle lets into the cell. */
  function Granted(random: nat -> real, n: nat, p: real, ofInfinity: int): nat {
    if p == -1.0 || Skips(p, random(n)) then 0 else Max(AwardFor(p, ofInfinity), 0)
  }

  lemma SettleBound(b: real, random: nat -> real, n: nat, c: Counter, flow: Key, p: real, ofInfinity: int)
    requires b != 0.0 && |c.fp| == |flow|
    ensures var e := Settle(b, random, n, c, flow, p, ofInfinity).0;
            && |e.fp| == |flow|
            && (e.votes > 0 ==>
                  if e.fp == flow
                  then e.votes <= Granted(random, n, p, ofInfinity) + (if c.fp == flow then c.votes else 0)
                  else e.fp == c.fp && e.votes <= c.votes)
  {
    AwardRunBound(b, random, n + 1, c, flow, AwardFor(p, ofInfinity));
  }

  lemma SettleExact(b: real, random: nat -> real, n: nat, c: Counter, flow: Key, p: real, ofInfinity: int)
    requires b != 0.0 && |c.fp| == |flow| && (c.votes == 0 || c.fp == flow)
    ensures var e := Settle(b, random, n, c, flow, p, ofInfinity).0;
            && e.votes == (c.votes + Granted(random, n, p, ofInfinity)) % TWO_32
            && (e.votes > 0 ==> e.fp == flow)
  {
    AwardRunExact(b, random, n + 1, c, flow, AwardFor(p, ofInfinity));
  }

  /** A rejection draws no number; any other result draws one, whatever its sign, before the loop draws its own. */
  lemma SettleDraws(b: real, random: nat -> real, n: nat, c: Counter, flow: Key, p: real, ofInfinity: int)
    requires b != 0.0
    ensures p == -1.0 ==> Settle(b, random, n, c, flow, p, ofInfinity) == (c, n)
    ensures p != -1.0 ==> Settle(b, random, n, c, flow, p, ofInfinity).1 > n
  {
    if p != -1.0 && !Skips(p, random(n)) {
      DrawsGoForward(b, random, n + 1, c, flow, AwardFor(p, ofInfinity));
    }
  }

  lemma {:induction false} DrawsGoForward(b: real, random: nat -> real, n: nat, c: Counter, flow: Key, left: int)
    requires b != 0.0
    ensures AwardRun(b, random, n, c, flow, left).1 >= n
    decreases left
  {
    if left > 0 {
      var (e, m) := AwardStep(b, random, n, c, flow);
      DrawsGoForward(b, random, m, e, flow, left - 1);
    }
  }

  /** At p == 0 nothing is skipped and the weight is whatever the machine makes of an infinity. */
  lemma InfiniteWeight(b: real, random: nat -> real, n: nat, c: Counter, flow: Key, ofInfinity: int)
    requires b != 0.0 && |c.fp| == |flow| && (c.votes == 0 || c.fp == flow)
    ensures Settle(b, random, n, c, flow, 0.0, ofInfinity).0.votes == (c.votes + Max(ofInfinity, 0)) % TWO_32
    ensures Granted(random, n, 0.0, ofInfinity) == Max(ofInfinity, 0)
  {
    SettleExact(b, random, n, c, flow, 0.0, ofInfinity);
  }

  /** For a positive p, above 1 too, a weight of ceil(1/p) awarded with chance pCU is 1/p on average, and
      pCU is a chance. */
  lemma AwardIsUnbiased(p: real)
    requires 0.0 < p
    ensures AwardFor(p, 0) >= 1 && (p >= 1.0 ==> AwardFor(p, 0) == 1)
    ensures var pCU := 1.0 / p / AwardFor(p, 0) as real;
            0.0 < pCU <= 1.0 && AwardFor(p, 0) as real * pCU == 1.0 / p
            && forall draw :: Skips(p, draw) <==> draw >= pCU
  {
    var x := 1.0 / p;
    Reciprocal(p, x);
    var c := Ceil(x) as real;
    assert c >= x;
    Quotient(x, c, x / c);
  }

  lemma Reciprocal(p: real, x: real)
    requires 0.0 < p && x == 1.0 / p
    ensures 0.0 < x && (p >= 1.0 ==> x <= 1.0)
  {
    assert x * p == 1.0;
    if x <= 0.0 {
      NonNegative(-x, p);
    } else if p >= 1.0 {
      NonNegative(x, p - 1.0);
    }
  }

  lemma Quotient(x: real, c: real, q: real)
    requires 0.0 < x <= c && q == x / c
    ensures 0.0 < q <= 1.0 && c * q == x
  {
    assert c * q == x;
    Scaled(c, q, 0.0);
    Scaled(c, q, 1.0);
  }

  /** A p at or below 0, which resets can leave behind, awards nothing with a negative weight and something
      arbitrary at 0. */
  lemma NoAwardBelowZero(b: real, random: nat -> real, n: nat, c: Counter, flow: Key, p: real)
    requires b != 0.0 && p < 0.0
    ensures forall inf :: Settle(b, random, n, c, flow, p, inf).0 == c && Granted(random, n, p, inf) == 0
  {
    var x := 1.0 / p;
    assert x * p == 1.0;
    if x >= 0.0 {
      NonNegative(x, -p);
    }
    assert Ceil(x) <= 0;
  }

  function Awards(awarded: map<(int, Key), nat>, i: int, f: Key): nat {
    if (i, f) in awarded then awarded[(i, f)] else 0
  }

  function Grant(awarded: map<(int, Key), nat>, i: int, f: Key, weight: nat): map<(int, Key), nat> {
    awarded[(i, f) := Awards(awarded, i, f) + weight]
  }

  /** The awards after a flow was granted granted[r] in each row r. */
  function GrantRows(awarded: map<(int, Key), nat>, f: Key, granted: seq<nat>): map<(int, Key), nat> {
    if granted == [] then awarded
    else
      var n := |granted| - 1;
      Grant(GrantRows(awarded, f, granted[..n]), n, f, granted[n])
  }

  /** Granting adds to the flow's own awards, row by row. */
  lemma {:induction false} AwardsAfter(awarded: map<(int, Key), nat>, flow: Key, granted: seq<nat>, i: nat, f: Key)
    ensures Awards(GrantRows(awarded, flow, granted), i, f) ==
            Awards(awarded, i, f) + (if f == flow && i < |granted| then granted[i] else 0)
  {
    if granted != [] {
      AwardsAfter(awarded, flow, granted[..|granted| - 1], i, f);
    }
  }

  datatype Cell = Cell(regs: seq<uint32>, p: real, key: Key, value: uint32)

  /** What encode does to registers and p. */
  ghost predicate SamplerEffect(s: Sampler, e: Key, before: Cell, after: Cell)
    requires s.Ok() && |before.regs| == s.m
  {
    var k, v := s.Route(e), s.Rank(e);
    if v <= before.regs[k] then after.regs == before.regs && after.p == before.p
    else after.regs == before.regs[k := v] && after.p == Moved(s, before.p, before.regs[k], v)
  }

  lemma EffectKeepsLedger(s: Sampler, e: Key, before: Cell, after: Cell)
    requires s.Ok() && |before.regs| == s.m && SamplerEffect(s, e, before, after)
    requires Ledger(s, before.regs, before.p)
    ensures Ledger(s, after.regs, after.p)
    ensures s.Rank(e) > before.regs[s.Route(e)] ==>
              (s.base > 0.0 ==> 0.0 < before.p) && (0.0 < s.base <= 1.0 ==> before.p <= 1.0)
  {
    var k, v := s.Route(e), s.Rank(e);
    if v > before.regs[k] {
      RaiseKeepsBalance(s, before.regs, before.p, k, v);
    }
  }

  const DEFAULT_WIDTH: uint32 := 0x10_0000
  const DEFAULT_DEPTH: uint32 := 3
  const DEFAULT_THRESHOLD: uint32 := 4096
  const DEFAULT_M: uint32 := 128
  const DEFAULT_SIZE: uint32 := 5
  const DEFAULT_BASE: real := 0.5
  const DEFAULT_B: real := 1.08

  /** The parameters of a cell's sampler after NewSuperSpread has filled in defaults. */
  function SamplerFor(hash: (Key, uint32) -> uint32, m: uint32, size: uint32, base: real,
                      rankSeed: uint32, routeSeed: uint32): Sampler
  {
    Sampler(hash, rankSeed, routeSeed, if m == 0 then DEFAULT_M else m, if base == 0.0 then DEFAULT_BASE else base,
            MaxValueFor(if size == 0 then DEFAULT_SIZE else size))
  }

  lemma {:induction false} SamplerForOk(hash: (Key, uint32) -> uint32, m: uint32, size: uint32, base: real,
                     rankSeed: uint32, routeSeed: uint32)
    ensures SamplerFor(hash, m, size, base, rankSeed, routeSeed).Ok()
    ensures var s := SamplerFor(hash, m, size, base, rankSeed, routeSeed);
            && s.hash == hash && s.rankSeed == rankSeed && s.routeSeed == routeSeed
            && s.m == (if m == 0 then 128 else m) && s.base == (if base == 0.0 then 0.5 else base)
            && (size == 0 ==> s.maxValue == 31) && (0 < size < 32 ==> s.maxValue + 1 == Pow2(size))
            && (size >= 32 ==> s.maxValue == 0xffff_ffff)
  {
    var bits := if size == 0 then DEFAULT_SIZE else size;
    Pow2Mono(1, bits);
    assert Pow2(1) == 2;
    MaxValues();
  }

  /** A sampler that has been offered nothing. */
  ghost predicate Unused(g: GeneralHLL, s: Sampler)
    reads g, g.hll
  {
    g.s == s && g.Valid() && g.log.offered == [] && g.log.everOffered == [] && !g.log.cleared && g.Balanced()
  }

  ghost predicate Apart(g: GeneralHLL, h: GeneralHLL) {
    g != h && g.hll != h.hll
  }

  method NewRow(n: nat, sampler: nat -> Sampler) returns (row: seq<GeneralHLL>)
    requires forall k :: sampler(k).Ok()
    ensures |row| == n
    ensures forall k :: 0 <= k < n ==> fresh(row[k]) && fresh(row[k].hll) && Unused(row[k], sampler(k))
    ensures forall k, l :: 0 <= k < l < n ==> Apart(row[k], row[l])
  {
    row := [];
    while |row| < n
      invariant |row| <= n
      invariant forall k :: 0 <= k < |row| ==> fresh(row[k]) && fresh(row[k].hll) && Unused(row[k], sampler(k))
      invariant forall k, l :: 0 <= k < l < |row| ==> Apart(row[k], row[l])
    {
      var g := new GeneralHLL(sampler(|row|));
      row := row + [g];
    }
  }

  method NewTable(d: nat, w: nat, sampler: (nat, nat) -> Sampler) returns (cm: seq<seq<GeneralHLL>>)
    requires forall i, j :: sampler(i, j).Ok()
    ensures |cm| == d && forall i :: 0 <= i < d ==> |cm[i]| == w
    ensures forall i, j :: 0 <= i < d && 0 <= j < w ==>
              fresh(cm[i][j]) && fresh(cm[i][j].hll) && Unused(cm[i][j], sampler(i, j))
    ensures forall i, j, k, l :: 0 <= i < d && 0 <= j < w && 0 <= k < d && 0 <= l < w && (i != k || j != l)
              ==> Apart(cm[i][j], cm[k][l])
  {
    cm := [];
    while |cm| < d
      invariant |cm| <= d && forall i :: 0 <= i < |cm| ==> |cm[i]| == w
      invariant forall i, j :: 0 <= i < |cm| && 0 <= j < w ==>
                  fresh(cm[i][j]) && fresh(cm[i][j].hll) && Unused(cm[i][j], sampler(i, j))
      invariant forall i, j, k, l :: 0 <= i < |cm| && 0 <= j < w && 0 <= k < |cm| && 0 <= l < w && (i != k || j != l)
                  ==> Apart(cm[i][j], cm[k][l])
    {
      var row := NewRow(w, (j: nat) => sampler(|cm|, j));
      cm := cm + [row];
    }
  }

  class SuperSpread {
    const hash: (Key, uint32) -> uint32
    const w: uint32
    const d: uint32
    const fs: uint32
    const threshold: uint32
    const b: real
    const seeds: seq<uint32>
    /** The results of rand.Float64, in order, and how many have been used. */
    const random: nat -> real
    var drawn: nat
    /** int(+Inf) on this machine. */
    const ofInfinity: int
    const cm: seq<seq<GeneralHLL>>
    const keys: array2<Key>
    const values: array2<uint32>
    /** The observations since construction or the last Reset. */
    ghost var history: seq<Observation>
    /** The observations since construction, and whether there was a Reset. */
    ghost var ever: seq<Observation>
    ghost var wasReset: bool
    /** Per row and flow, the sum of the positive weights awarded. */
    ghost var awarded: map<(int, Key), nat>

    ghost function Samplers(): set<object> {
      set i, j | 0 <= i < |cm| && 0 <= j < |cm[i]| :: cm[i][j] as object
    }

    ghost function Registers(): set<object> {
      set i, j | 0 <= i < |cm| && 0 <= j < |cm[i]| :: cm[i][j].hll as object
    }

    ghost predicate Shaped() {
      && w > 0 && d > 0 && threshold > 0 && b != 0.0 && |seeds| == d
      && |cm| == d && (forall i :: 0 <= i < d ==> |cm[i]| == w)
      && (forall i, j :: 0 <= i < d && 0 <= j < w ==> cm[i][j].s.Ok() && cm[i][j].hll.Length == cm[i][j].s.m)
      && keys.Length0 == d && keys.Length1 == w && values.Length0 == d && values.Length1 == w
    }

    /** No two cells share a sampler or its registers. */
    ghost predicate Separate()
      requires Shaped()
    {
      forall i, j, k, l :: 0 <= i < d && 0 <= j < w && 0 <= k < d && 0 <= l < w && (i != k || j != l)
        ==> cm[i][j] != cm[k][l] && cm[i][j].hll != cm[k][l].hll
    }

    /** A fresh sampler per cell, with p at 1; empty keys and values. */
    constructor (hash: (Key, uint32) -> uint32, width: uint32, depth: uint32, threshold: uint32,
                 m: uint32, size: uint32, base: real, b: real, fs: uint32,
                 randomSeed: (nat, nat, nat) -> uint32, random: nat -> real, ofInfinity: int)
      ensures Valid()
      ensures history == [] && ever == [] && !wasReset && awarded == map[] && drawn == 0
      ensures this.hash == hash && this.fs == fs && this.random == random && this.ofInfinity == ofInfinity
      ensures w == (if width == 0 then 1_048_576 else width) && d == (if depth == 0 then 3 else depth)
      ensures this.threshold == (if threshold == 0 then 4096 else threshold)
      ensures this.b == (if b == 0.0 then 1.08 else b)
      ensures forall k: nat :: k < d ==> seeds[k] == randomSeed(k, 0, 2)
      ensures forall i, j :: 0 <= i < d && 0 <= j < w ==>
                && Unused(cm[i][j], SamplerFor(hash, m, size, base, randomSeed(i, j, 0), randomSeed(i, j, 1)))
                && values[i, j] == 0
    {
      var columns := if width == 0 then DEFAULT_WIDTH else width;
      var rows := if depth == 0 then DEFAULT_DEPTH else depth;
      this.hash, this.fs, this.random, this.ofInfinity := hash, fs, random, ofInfinity;
      w, d := columns, rows;
      this.threshold := if threshold == 0 then DEFAULT_THRESHOLD else threshold;
      this.b := if b == 0.0 then DEFAULT_B else b;
      seeds := seq(rows, (k: nat) => randomSeed(k, 0, 2));
      forall i: nat, j: nat ensures SamplerFor(hash, m, size, base, randomSeed(i, j, 0), randomSeed(i, j, 1)).Ok() {
        SamplerForOk(hash, m, size, base, randomSeed(i, j, 0), randomSeed(i, j, 1));
      }
      var samplers := NewTable(rows, columns, (i: nat, j: nat) =>
        SamplerFor(hash, m, size, base, randomSeed(i, j, 0), randomSeed(i, j, 1)));
      cm := samplers;
      keys := new Key[rows, columns]((i, j) => Zeros(fs));
      values := new uint32[rows, columns]((i, j) => 0);
      drawn, history, awarded := 0, [], map[];
      ever, wasReset := [], false;
      new;
      assert Separate();
      EmptyIsValid();
    }

    lemma EmptyIsValid()
      requires Shaped() && Separate() && history == [] && awarded == map[]
      requires forall i, j :: 0 <= i < d && 0 <= j < w ==>
                 && cm[i][j].Valid() && cm[i][j].log.offered == [] && cm[i][j].log.cleared == wasReset
                 && cm[i][j].log.everOffered == Offered(ever, ColumnOf(i), j)
      requires forall i, j :: 0 <= i < d && 0 <= j < w ==> |keys[i, j]| == fs && values[i, j] == 0
      ensures Valid()
    {
      forall i: nat | i < d ensures LonelyAt(i, TableView(), awarded, history) {
        EmptyRowIsLonely(i, RowView(i));
      }
    }

    lemma EmptyRowIsLonely(i: nat, row: seq<Cell>)
      requires Shaped() && i < d && |row| == w && forall c :: 0 <= c < w ==> row[c].value == 0
      ensures LonelyRow(i, row, map[], [])
    {
    }

    function ColumnOf(i: nat): Key -> uint32
      requires w > 0 && i < |seeds|
    {
      Column(hash, seeds[i], w)
    }

    ghost function Award(i: int, f: Key): nat
      reads this`awarded
    {
      Awards(awarded, i, f)
    }

    ghost function Run(): Past
      reads this`history, this`ever, this`wasReset
    {
      Past(history, ever, wasReset)
    }

    /** The sampler of cell (i, j) has been offered exactly the observations routed to it. */
    ghost predicate SamplerOk(i: nat, j: nat, h: Past)
      requires Shaped() && i < d && j < w
      reads cm[i][j], cm[i][j].hll
    {
      && cm[i][j].Valid() && cm[i][j].log.cleared == h.cleared
      && cm[i][j].log.offered == Offered(h.recent, ColumnOf(i), j)
      && cm[i][j].log.everOffered == Offered(h.ever, ColumnOf(i), j)
    }

    /** A live key belongs to its cell, and its value is at most what it was awarded. */
    ghost predicate ValueOk(i: nat, j: nat)
      requires Shaped() && i < d && j < w
      reads this`awarded, keys, values
    {
      && |keys[i, j]| == fs
      && (values[i, j] > 0 ==> ColumnOf(i)(keys[i, j]) == j && values[i, j] <= Award(i, keys[i, j]))
    }

    ghost predicate Valid()
      reads this`history, this`ever, this`wasReset, this`awarded, keys, values, Samplers(), Registers()
    {
      && Shaped() && Separate()
      && (forall i, j :: 0 <= i < d && 0 <= j < w ==> SamplerOk(i, j, Run()))
      && (forall i, j :: 0 <= i < d && 0 <= j < w ==> ValueOk(i, j))
      && LonelyTable(TableView(), awarded, history)
    }

    /** In row i no other flow observed has the digest of f, modulo the width. */
    ghost predicate Lonely(i: nat, f: Key, h: seq<Observation>)
      requires w > 0 && i < |seeds|
    {
      forall o :: o in h && o.flow != f ==> hash(o.flow, seeds[i]) % w != hash(f, seeds[i]) % w
    }

    /** The cell of a flow that is alone there holds exactly what the flow was awarded, modulo 2^32. */
    ghost predicate LonelyRow(i: nat, row: seq<Cell>, awards: map<(int, Key), nat>, h: seq<Observation>)
      requires w > 0 && i < |seeds|
    {
      |row| == w && forall f: Key :: |f| == fs && Lonely(i, f, h) ==> Credited(i, row, awards, f)
    }

    ghost predicate Credited(i: nat, row: seq<Cell>, awards: map<(int, Key), nat>, f: Key)
      requires w > 0 && i < |seeds| && |row| == w
    {
      var c := row[hash(f, seeds[i]) % w];
      c.value == Awards(awards, i, f) % TWO_32 && (c.value > 0 ==> c.key == f)
    }

    ghost predicate LonelyAt(i: nat, t: seq<seq<Cell>>, awards: map<(int, Key), nat>, h: seq<Observation>)
      requires w > 0 && i < |seeds| && i < |t|
    {
      LonelyRow(i, t[i], awards, h)
    }

    ghost predicate LonelyTable(t: seq<seq<Cell>>, awards: map<(int, Key), nat>, h: seq<Observation>)
      requires Shaped()
    {
      |t| == d && forall i: nat :: i < d ==> LonelyAt(i, t, awards, h)
    }

    /** The observable state of cell (i, j). */
    ghost function View(i: nat, j: nat): Cell
      requires Shaped() && i < d && j < w
      reads keys, values, cm[i][j], cm[i][j].hll
    {
      Cell(cm[i][j].hll[..], cm[i][j].p, keys[i, j], values[i, j])
    }

    ghost function CounterAt(i: nat, j: nat): Counter
      requires Shaped() && i < d && j < w
      reads keys, values
    {
      Counter(keys[i, j], values[i, j])
    }

    /** The award loop on cell (i, j). */
    method AwardAll(i: nat, j: nat, flow: Key, weight: int)
      requires Shaped() && i < d && j < w
      modifies this`drawn, keys, values
      ensures forall r, c :: 0 <= r < d && 0 <= c < w && (r != i || c != j) ==> CounterAt(r, c) == old(CounterAt(r, c))
      ensures (CounterAt(i, j), drawn) == AwardRun(b, random, old(drawn), old(CounterAt(i, j)), flow, weight)
    {
      var tempVV := weight;
      while tempVV > 0
        invariant forall r, c :: 0 <= r < d && 0 <= c < w && (r != i || c != j) ==>
                    CounterAt(r, c) == old(CounterAt(r, c))
        invariant AwardRun(b, random, drawn, CounterAt(i, j), flow, tempVV)
                  == AwardRun(b, random, old(drawn), old(CounterAt(i, j)), flow, weight)
      {
        tempVV := tempVV - 1;
        var val := values[i, j];
        if val == 0 {
          values[i, j] := 1;
          keys[i, j] := CopyInto(keys[i, j], flow);
        } else if keys[i, j] == flow {
          values[i, j] := Add32(val, 1);
        } else {
          var draw := random(drawn);
          drawn := drawn + 1;
          if Decays(b, val, draw) {
            values[i, j] := val - 1;
          }
        }
      }
    }

    /** During Insert of o after the run h: the samplers of the rows below i have been offered it, the
        others not yet. */
    ghost predicate SamplersAt(i: nat, h: Past, o: Observation)
      reads Samplers(), Registers()
    {
      && Shaped() && Separate()
      && (forall r, c :: 0 <= r < d && r < i && 0 <= c < w ==> SamplerOk(r, c, h.Add(o)))
      && (forall r, c :: i <= r < d && 0 <= c < w ==> SamplerOk(r, c, h))
    }

    ghost predicate ValuesOk()
      requires Shaped()
      reads this`awarded, keys, values
    {
      forall r, c :: 0 <= r < d && 0 <= c < w ==> ValueOk(r, c)
    }

    /** What encode reports for an element whose cell is in state c. */
    ghost function Reported(i: nat, flow: Key, elem: Key, c: Cell): real
      requires Shaped() && i < d && |c.regs| == cm[i][ColumnOf(i)(flow)].s.m
    {
      var s := cm[i][ColumnOf(i)(flow)].s;
      if s.Rank(flow + elem) <= c.regs[s.Route(flow + elem)] then -1.0 else c.p
    }

    /** The exact effect of one row of Insert on the flow's cell, using the draws from n to m. */
    ghost predicate RowEffect(i: nat, flow: Key, elem: Key, before: Cell, after: Cell, n: nat, m: nat)
      requires Shaped() && i < d && |before.regs| == cm[i][ColumnOf(i)(flow)].s.m
    {
      var s := cm[i][ColumnOf(i)(flow)].s;
      var k, v := s.Route(flow + elem), s.Rank(flow + elem);
      && SamplerEffect(s, flow + elem, before, after)
      && (Counter(after.key, after.value), m)
         == Settle(b, random, n, Counter(before.key, before.value), flow, Reported(i, flow, elem, before), ofInfinity)
    }

    /** The sampling half of one row of Insert. */
    method EncodeCell(i: nat, flow: Key, elem: Key, ghost h: Past) returns (tempP: real)
      requires Shaped() && Separate() && i < d && SamplerOk(i, ColumnOf(i)(flow), h)
      modifies cm[i][ColumnOf(i)(flow)], cm[i][ColumnOf(i)(flow)].hll
      ensures SamplerOk(i, ColumnOf(i)(flow), h.Add(Observation(flow, elem)))
      ensures forall r, c :: 0 <= r < d && 0 <= c < w && (r != i || c != ColumnOf(i)(flow))
                ==> unchanged(cm[r][c]) && unchanged(cm[r][c].hll)
      ensures tempP == Reported(i, flow, elem, old(View(i, ColumnOf(i)(flow))))
      ensures SamplerEffect(cm[i][ColumnOf(i)(flow)].s, flow + elem, old(View(i, ColumnOf(i)(flow))),
                            View(i, ColumnOf(i)(flow)))
    {
      ghost var o := Observation(flow, elem);
      assert (h.recent + [o])[..|h.recent|] == h.recent && (h.ever + [o])[..|h.ever|] == h.ever;
      tempP := cm[i][ColumnOf(i)(flow)].Encode(flow + elem);
    }

    method EncodeRow(i: nat, flow: Key, elem: Key, ghost h: Past) returns (tempP: real)
      requires i < d && SamplersAt(i, h, Observation(flow, elem))
      modifies cm[i][ColumnOf(i)(flow)], cm[i][ColumnOf(i)(flow)].hll
      ensures SamplersAt(i + 1, h, Observation(flow, elem))
      ensures forall r, c :: 0 <= r < d && 0 <= c < w && (r != i || c != ColumnOf(i)(flow))
                ==> unchanged(cm[r][c]) && unchanged(cm[r][c].hll)
      ensures tempP == Reported(i, flow, elem, old(View(i, ColumnOf(i)(flow))))
      ensures SamplerEffect(cm[i][ColumnOf(i)(flow)].s, flow + elem, old(View(i, ColumnOf(i)(flow))),
                            View(i, ColumnOf(i)(flow)))
    {
      ghost var o := Observation(flow, elem);
      ghost var j := ColumnOf(i)(flow);
      assert (h.recent + [o])[..|h.recent|] == h.recent && (h.ever + [o])[..|h.ever|] == h.ever;
      assert SamplerOk(i, j, h);
      tempP := EncodeCell(i, flow, elem, h);
      forall r, c | 0 <= r < i && 0 <= c < w ensures SamplerOk(r, c, h.Add(o)) {
        assert old(SamplerOk(r, c, h.Add(o)));
      }
      forall c | 0 <= c < w ensures SamplerOk(i, c, h.Add(o)) {
        assert c != j ==> old(SamplerOk(i, c, h));
      }
      forall r, c | i < r < d && 0 <= c < w ensures SamplerOk(r, c, h) {
        assert old(SamplerOk(r, c, h));
      }
    }

    /** The award half of one row of Insert, after encode returned tempP. */
    method SettleCell(i: nat, flow: Key, tempP: real)
      requires Shaped() && i < d && |flow| == fs
      modifies this`drawn, keys, values
      ensures forall r, c :: 0 <= r < d && 0 <= c < w && (r != i || c != ColumnOf(i)(flow))
                ==> CounterAt(r, c) == old(CounterAt(r, c))
      ensures (CounterAt(i, ColumnOf(i)(flow)), drawn)
              == Settle(b, random, old(drawn), old(CounterAt(i, ColumnOf(i)(flow))), flow, tempP, ofInfinity)
    {
      var j := ColumnOf(i)(flow);
      if tempP != -1.0 {
        var randFloatValue := random(drawn);
        drawn := drawn + 1;
        if !Skips(tempP, randFloatValue) {
          AwardAll(i, j, flow, AwardFor(tempP, ofInfinity));
        }
      }
    }

    method AwardRow(i: nat, flow: Key, tempP: real)
      requires Shaped() && i < d && |flow| == fs && ValuesOk()
      modifies this`awarded, this`drawn, keys, values
      ensures ValuesOk()
      ensures forall r, c :: 0 <= r < d && 0 <= c < w && (r != i || c != ColumnOf(i)(flow))
                ==> CounterAt(r, c) == old(CounterAt(r, c))
      ensures (CounterAt(i, ColumnOf(i)(flow)), drawn)
              == Settle(b, random, old(drawn), old(CounterAt(i, ColumnOf(i)(flow))), flow, tempP, ofInfinity)
      ensures awarded == Grant(old(awarded), i, flow, Granted(random, old(drawn), tempP, ofInfinity))
    {
      var j := ColumnOf(i)(flow);
      assert ValueOk(i, j);
      SettleBound(b, random, drawn, CounterAt(i, j), flow, tempP, ofInfinity);
      ghost var granted := Granted(random, drawn, tempP, ofInfinity);
      SettleCell(i, flow, tempP);
      awarded := Grant(awarded, i, flow, granted);
      forall r, c | 0 <= r < d && 0 <= c < w && (r != i || c != j) ensures ValueOk(r, c) {
        assert old(ValueOk(r, c));
        assert CounterAt(r, c) == old(CounterAt(r, c));
      }
    }

    /** One row of Insert. */
    method InsertRow(i: nat, flow: Key, elem: Key, ghost h: Past)
      requires i < d && |flow| == fs && SamplersAt(i, h, Observation(flow, elem)) && ValuesOk()
      modifies this`awarded, this`drawn, keys, values, Samplers(), Registers()
      ensures SamplersAt(i + 1, h, Observation(flow, elem)) && ValuesOk()
      ensures forall r, c :: 0 <= r < d && 0 <= c < w && (r != i || c != ColumnOf(i)(flow)) ==>
                View(r, c) == old(View(r, c))
      ensures var before := old(View(i, ColumnOf(i)(flow)));
              && RowEffect(i, flow, elem, before, View(i, ColumnOf(i)(flow)), old(drawn), drawn)
              && awarded == Grant(old(awarded), i, flow,
                                  Granted(random, old(drawn), Reported(i, flow, elem, before), ofInfinity))
    {
      var tempP := EncodeRow(i, flow, elem, h);
      AwardRow(i, flow, tempP);
      forall r, c | 0 <= r < d && 0 <= c < w && (r != i || c != ColumnOf(i)(flow))
        ensures View(r, c) == old(View(r, c))
      {
        assert unchanged(cm[r][c]) && unchanged(cm[r][c].hll);
        assert CounterAt(r, c) == old(CounterAt(r, c));
      }
    }

    /** Row i of the table, and the whole table. */
    ghost function RowView(i: nat): seq<Cell>
      requires Shaped() && i < d
      reads keys, values, Samplers(), Registers()
    {
      seq(w, c requires 0 <= c < w reads keys, values, Samplers(), Registers() => View(i, c))
    }

    ghost function TableView(): seq<seq<Cell>>
      requires Shaped()
      reads keys, values, Samplers(), Registers()
    {
      seq(d, i requires 0 <= i < d reads keys, values, Samplers(), Registers() => RowView(i))
    }

    /** Row r of the table after Insert, from what it was before, with the draws n to m: only the flow's
        cell differs, as RowEffect says, and g is the weight let in. */
    ghost predicate RowDone(r: nat, flow: Key, elem: Key, before: seq<Cell>, after: seq<Cell>, n: nat, m: nat, g: nat)
      requires Shaped() && r < d
    {
      var j := ColumnOf(r)(flow);
      && |before| == |after| == w && |before[j].regs| == cm[r][j].s.m
      && after == before[j := after[j]]
      && RowEffect(r, flow, elem, before[j], after[j], n, m)
      && g == Granted(random, n, Reported(r, flow, elem, before[j]), ofInfinity)
    }

    /** One row of Insert, on the table as a whole. */
    method InsertRowInTable(i: nat, flow: Key, elem: Key, ghost h: Past) returns (ghost g: nat)
      requires i < d && |flow| == fs && SamplersAt(i, h, Observation(flow, elem)) && ValuesOk()
      modifies this`awarded, this`drawn, keys, values, Samplers(), Registers()
      ensures SamplersAt(i + 1, h, Observation(flow, elem)) && ValuesOk()
      ensures forall r :: 0 <= r < d && r != i ==> TableView()[r] == old(TableView())[r]
      ensures RowDone(i, flow, elem, old(TableView())[i], TableView()[i], old(drawn), drawn, g)
      ensures awarded == Grant(old(awarded), i, flow, g)
    {
      ghost var j := ColumnOf(i)(flow);
      g := Granted(random, drawn, Reported(i, flow, elem, View(i, j)), ofInfinity);
      InsertRow(i, flow, elem, h);
      assert RowView(i) == old(RowView(i))[j := View(i, j)];
      forall r | 0 <= r < d && r != i ensures RowView(r) == old(RowView(r)) {
      }
    }

    /** The rows below n, taken from table t to table u. */
    ghost predicate RowsDone(n: nat, flow: Key, elem: Key, t: seq<seq<Cell>>, u: seq<seq<Cell>>,
                             starts: seq<nat>, granted: seq<nat>)
      requires Shaped() && n <= d
    {
      && |t| == |u| == d && |granted| == n && |starts| == n + 1
      && (forall r :: 0 <= r < n ==> RowDone(r, flow, elem, t[r], u[r], starts[r], starts[r + 1], granted[r]))
      && (forall r :: n <= r < d ==> u[r] == t[r])
    }

    lemma OneMoreRowDone(i: nat, flow: Key, elem: Key, t: seq<seq<Cell>>, u: seq<seq<Cell>>, v: seq<seq<Cell>>,
                         starts: seq<nat>, granted: seq<nat>, m: nat, g: nat)
      requires Shaped() && i < d && RowsDone(i, flow, elem, t, u, starts, granted) && |v| == d
      requires RowDone(i, flow, elem, u[i], v[i], starts[i], m, g) && forall r :: 0 <= r < d && r != i ==> v[r] == u[r]
      ensures RowsDone(i + 1, flow, elem, t, v, starts + [m], granted + [g])
    {
    }

    /** The loop of Insert. */
    method InsertRows(flow: Key, elem: Key, ghost h: Past) returns (ghost starts: seq<nat>, ghost granted: seq<nat>)
      requires Shaped() && |flow| == fs && SamplersAt(0, h, Observation(flow, elem)) && ValuesOk()
      modifies this`awarded, this`drawn, keys, values, Samplers(), Registers()
      ensures SamplersAt(d, h, Observation(flow, elem)) && ValuesOk()
      ensures RowsDone(d, flow, elem, old(TableView()), TableView(), starts, granted)
      ensures starts[0] == old(drawn) && starts[d] == drawn
      ensures awarded == GrantRows(old(awarded), flow, granted)
    {
      ghost var t := TableView();
      var i := 0;
      starts, granted := [drawn], [];
      while i < d
        invariant 0 <= i <= d
        invariant SamplersAt(i, h, Observation(flow, elem)) && ValuesOk()
        invariant RowsDone(i, flow, elem, t, TableView(), starts, granted)
        invariant starts[0] == old(drawn) && starts[i] == drawn
        invariant awarded == GrantRows(old(awarded), flow, granted)
      {
        ghost var u := TableView();
        ghost var g := InsertRowInTable(i, flow, elem, h);
        assert (granted + [g])[..i] == granted;
        OneMoreRowDone(i, flow, elem, t, u, TableView(), starts, granted, drawn, g);
        starts, granted := starts + [drawn], granted + [g];
        i := i + 1;
      }
    }

    /** encode would turn the element down in this row. */
    ghost predicate Rejected(r: nat, flow: Key, elem: Key, row: seq<Cell>)
      requires Shaped() && r < d
    {
      var j := ColumnOf(r)(flow);
      var s := cm[r][j].s;
      |row| == w && |row[j].regs| == s.m && s.Rank(flow + elem) <= row[j].regs[s.Route(flow + elem)]
    }

    ghost predicate RejectedEverywhere(flow: Key, elem: Key, t: seq<seq<Cell>>)
      requires Shaped()
    {
      |t| == d && forall r :: 0 <= r < d ==> Rejected(r, flow, elem, t[r])
    }

    lemma {:induction false} RejectedRows(flow: Key, elem: Key, t: seq<seq<Cell>>, u: seq<seq<Cell>>,
                                          starts: seq<nat>, granted: seq<nat>, n: nat)
      requires Shaped() && n <= d && RowsDone(d, flow, elem, t, u, starts, granted) && RejectedEverywhere(flow, elem, t)
      ensures forall r :: 0 <= r < n ==> u[r] == t[r] && granted[r] == 0
      ensures starts[n] == starts[0]
    {
      if n > 0 {
        RejectedRows(flow, elem, t, u, starts, granted, n - 1);
        assert RowDone(n - 1, flow, elem, t[n - 1], u[n - 1], starts[n - 1], starts[n], granted[n - 1]);
        assert Rejected(n - 1, flow, elem, t[n - 1]);
      }
    }

    /** Rejected in every row: nothing changes and no draw is used. */
    lemma RejectionChangesNothing(flow: Key, elem: Key, t: seq<seq<Cell>>, u: seq<seq<Cell>>,
                                  starts: seq<nat>, granted: seq<nat>)
      requires Shaped() && RowsDone(d, flow, elem, t, u, starts, granted) && RejectedEverywhere(flow, elem, t)
      ensures u == t && starts[d] == starts[0] && forall r :: 0 <= r < d ==> granted[r] == 0
    {
      RejectedRows(flow, elem, t, u, starts, granted, d);
    }

    /** An observation made before is rejected in every row. */
    lemma SeenIsRejected(o: Observation)
      requires Valid() && o in history
      ensures RejectedEverywhere(o.flow, o.elem, TableView())
    {
      forall i | 0 <= i < d ensures Rejected(i, o.flow, o.elem, RowView(i)) {
        var j := ColumnOf(i)(o.flow);
        assert SamplerOk(i, j, Run());
        OfferedToOwnColumn(history, ColumnOf(i), o);
        var g := cm[i][j];
        MaxRankIsMax(g.s, g.log.offered, g.s.Route(Merge(o)));
      }
    }

    lemma ReadyFor(o: Observation)
      requires Valid()
      ensures SamplersAt(0, Run(), o) && ValuesOk()
    {
    }

    ghost method RecordObservation(h: Past)
      requires Shaped()
      modifies this`history, this`ever, this`wasReset
      ensures Run() == h && TableView() == old(TableView())
    {
      history, ever, wasReset := h.recent, h.ever, h.cleared;
      forall r | 0 <= r < d ensures RowView(r) == old(RowView(r)) {
        assert forall c :: 0 <= c < w ==> View(r, c) == old(View(r, c));
      }
    }

    /** A row of Insert keeps this. */
    lemma RowKeepsLonely(i: nat, o: Observation, before: seq<Cell>, after: seq<Cell>, n: nat, m: nat, g: nat,
                         was: map<(int, Key), nat>, awards: map<(int, Key), nat>, h: seq<Observation>)
      requires Shaped() && i < d && |o.flow| == fs && RowDone(i, o.flow, o.elem, before, after, n, m, g)
      requires LonelyRow(i, before, was, h) && forall c :: 0 <= c < w ==> |before[c].key| == fs
      requires forall f :: Awards(awards, i, f) == Awards(was, i, f) + (if f == o.flow then g else 0)
      ensures LonelyRow(i, after, awards, h + [o])
    {
      forall f: Key | |f| == fs && Lonely(i, f, h + [o]) ensures Credited(i, after, awards, f) {
        LonelyBefore(i, f, h, o);
        assert Credited(i, before, was, f);
        if f == o.flow {
          OwnCredited(i, o, before, after, n, m, g, was, awards);
        } else {
          OtherCellStays(i, o, before, after, n, m, g, f);
        }
      }
    }

    lemma LonelyBefore(i: nat, f: Key, h: seq<Observation>, o: Observation)
      requires w > 0 && i < |seeds| && Lonely(i, f, h + [o])
      ensures Lonely(i, f, h) && (f != o.flow ==> hash(o.flow, seeds[i]) % w != hash(f, seeds[i]) % w)
    {
      assert forall x :: x in h ==> x in h + [o];
      assert o in h + [o];
    }

    lemma OtherCellStays(i: nat, o: Observation, before: seq<Cell>, after: seq<Cell>, n: nat, m: nat, g: nat, f: Key)
      requires Shaped() && i < d && RowDone(i, o.flow, o.elem, before, after, n, m, g)
      requires hash(o.flow, seeds[i]) % w != hash(f, seeds[i]) % w
      ensures after[hash(f, seeds[i]) % w] == before[hash(f, seeds[i]) % w]
    {
    }

    lemma OwnCredited(i: nat, o: Observation, before: seq<Cell>, after: seq<Cell>, n: nat, m: nat, g: nat,
                      was: map<(int, Key), nat>, awards: map<(int, Key), nat>)
      requires Shaped() && i < d && |o.flow| == fs && RowDone(i, o.flow, o.elem, before, after, n, m, g)
      requires Credited(i, before, was, o.flow) && |before[ColumnOf(i)(o.flow)].key| == fs
      requires Awards(awards, i, o.flow) == Awards(was, i, o.flow) + g
      ensures Credited(i, after, awards, o.flow)
    {
      var j := ColumnOf(i)(o.flow);
      assert j == hash(o.flow, seeds[i]) % w;
      OwnCellExact(i, o, before[j], after[j], n, m, g);
      WrapsTwice(Awards(was, i, o.flow), g);
    }

    lemma OwnCellExact(i: nat, o: Observation, before: Cell, after: Cell, n: nat, m: nat, g: nat)
      requires Shaped() && i < d && |before.regs| == cm[i][ColumnOf(i)(o.flow)].s.m && |before.key| == |o.flow|
      requires RowEffect(i, o.flow, o.elem, before, after, n, m)
      requires g == Granted(random, n, Reported(i, o.flow, o.elem, before), ofInfinity)
      requires before.value > 0 ==> before.key == o.flow
      ensures after.value == (before.value + g) % TWO_32 && (after.value > 0 ==> after.key == o.flow)
    {
      SettleExact(b, random, n, Counter(before.key, before.value), o.flow, Reported(i, o.flow, o.elem, before),
                  ofInfinity);
    }

    /** Insert keeps it for the whole table. */
    lemma {:induction false} InsertKeepsLonely(o: Observation, t: seq<seq<Cell>>, u: seq<seq<Cell>>,
                                               starts: seq<nat>, granted: seq<nat>,
                                               awards: map<(int, Key), nat>, h: seq<Observation>)
      requires Shaped() && |o.flow| == fs && RowsDone(d, o.flow, o.elem, t, u, starts, granted)
      requires LonelyTable(t, awards, h) && forall i: nat :: i < d ==> KeysFitAt(i, t)
      ensures LonelyTable(u, GrantRows(awards, o.flow, granted), h + [o])
    {
      forall i: nat | i < d ensures LonelyAt(i, u, GrantRows(awards, o.flow, granted), h + [o]) {
        forall f ensures Awards(GrantRows(awards, o.flow, granted), i, f)
                         == Awards(awards, i, f) + (if f == o.flow then granted[i] else 0)
        {
          AwardsAfter(awards, o.flow, granted, i, f);
        }
        assert LonelyAt(i, t, awards, h) && KeysFitAt(i, t);
        RowKeepsLonely(i, o, t[i], u[i], starts[i], starts[i + 1], granted[i], awards,
                       GrantRows(awards, o.flow, granted), h);
      }
    }

    lemma KeysFit()
      requires Shaped() && ValuesOk()
      ensures forall i: nat :: i < d ==> KeysFitAt(i, TableView())
    {
      forall i: nat, c | i < d && 0 <= c < w ensures |TableView()[i][c].key| == fs {
        assert ValueOk(i, c);
      }
    }

    ghost predicate KeysFitAt(i: nat, t: seq<seq<Cell>>)
      requires i < |t|
    {
      |t[i]| == w && forall c :: 0 <= c < w ==> |t[i][c].key| == fs
    }

    lemma ObservedIsValid(h: Past, o: Observation)
      requires Shaped() && SamplersAt(d, h, o) && ValuesOk() && Run() == h.Add(o)
      requires LonelyTable(TableView(), awarded, history)
      ensures Valid()
    {
    }

    method InsertEverywhere(flow: Key, elem: Key, ghost h: Past)
      returns (ghost starts: seq<nat>, ghost granted: seq<nat>)
      requires Shaped() && |flow| == fs && SamplersAt(0, h, Observation(flow, elem)) && ValuesOk()
      requires LonelyTable(TableView(), awarded, h.recent)
      modifies this`awarded, this`drawn, keys, values, Samplers(), Registers()
      ensures SamplersAt(d, h, Observation(flow, elem)) && ValuesOk()
      ensures RowsDone(d, flow, elem, old(TableView()), TableView(), starts, granted)
      ensures starts[0] == old(drawn) && starts[d] == drawn
      ensures awarded == GrantRows(old(awarded), flow, granted)
      ensures LonelyTable(TableView(), awarded, h.recent + [Observation(flow, elem)])
    {
      KeysFit();
      ghost var t, awards := TableView(), awarded;
      starts, granted := InsertRows(flow, elem, h);
      InsertKeepsLonely(Observation(flow, elem), t, TableView(), starts, granted, awards, h.recent);
    }

    /** Insert changes one cell per row, each as RowDone says, with the draws handed from row to row. When
        the element is rejected in every row, as SeenIsRejected says it is if the flow and element were
        inserted before, the whole sketch stays as it was and no draw is used. */
    method Insert(flow: Key, elem: Key, size: uint32) returns (ghost starts: seq<nat>, ghost granted: seq<nat>)
      requires Valid() && |flow| == fs
      modifies this`history, this`ever, this`wasReset, this`awarded, this`drawn, keys, values, Samplers(), Registers()
      ensures Valid() && Run() == old(Run()).Add(Observation(flow, elem))
      ensures RowsDone(d, flow, elem, old(TableView()), TableView(), starts, granted)
      ensures starts[0] == old(drawn) && starts[d] == drawn
      ensures awarded == GrantRows(old(awarded), flow, granted)
    {
      ghost var h := Run();
      ReadyFor(Observation(flow, elem));
      starts, granted := InsertEverywhere(flow, elem, h);
      RecordObservation(h.Add(Observation(flow, elem)));
      ObservedIsValid(h, Observation(flow, elem));
    }

    /** Distinct elements only: inserting a flow and element again leaves registers, probabilities, keys,
        values and the stream of draws as they were, whatever the draws would have been. */
    method Reinsert(flow: Key, elem: Key, size: uint32)
      requires Valid() && |flow| == fs && Observation(flow, elem) in history
      modifies this`history, this`ever, this`wasReset, this`awarded, this`drawn, keys, values, Samplers(), Registers()
      ensures Valid()
      ensures TableView() == old(TableView()) && drawn == old(drawn)
    {
      SeenIsRejected(Observation(flow, elem));
      ghost var t := TableView();
      ghost var starts, granted := Insert(flow, elem, size);
      RejectionChangesNothing(flow, elem, t, TableView(), starts, granted);
    }

    /** The ledger of every sampler in a row, and in the table. */
    ghost predicate RowBalanced(r: nat, row: seq<Cell>)
      requires Shaped() && r < d
    {
      |row| == w && forall c :: 0 <= c < w ==>
        |row[c].regs| == cm[r][c].s.m && Ledger(cm[r][c].s, row[c].regs, row[c].p)
    }

    ghost predicate Balanced(t: seq<seq<Cell>>)
      requires Shaped()
    {
      |t| == d && forall r :: 0 <= r < d ==> RowBalanced(r, t[r])
    }

    /** A row of Insert keeps its ledgers, and an accepted element is awarded its weight with a positive
        p, so AwardIsUnbiased applies to it; for a base up to 1 it is a probability. */
    lemma RowKeepsLedgers(r: nat, flow: Key, elem: Key, before: seq<Cell>, after: seq<Cell>, n: nat, m: nat, g: nat)
      requires Shaped() && r < d && RowBalanced(r, before)
      requires RowDone(r, flow, elem, before, after, n, m, g)
      ensures RowBalanced(r, after)
      ensures !Rejected(r, flow, elem, before) ==>
                var p, base := before[ColumnOf(r)(flow)].p, cm[r][ColumnOf(r)(flow)].s.base;
                (base > 0.0 ==> 0.0 < p) && (0.0 < base <= 1.0 ==> p <= 1.0)
    {
      var j := ColumnOf(r)(flow);
      EffectKeepsLedger(cm[r][j].s, flow + elem, before[j], after[j]);
    }

    lemma InsertKeepsLedgers(flow: Key, elem: Key, t: seq<seq<Cell>>, u: seq<seq<Cell>>,
                             starts: seq<nat>, granted: seq<nat>)
      requires Shaped() && RowsDone(d, flow, elem, t, u, starts, granted) && Balanced(t)
      ensures Balanced(u)
    {
      forall r | 0 <= r < d ensures RowBalanced(r, u[r]) {
        RowKeepsLedgers(r, flow, elem, t[r], u[r], starts[r], starts[r + 1], granted[r]);
      }
    }

    ghost function Columns(): seq<Key -> uint32>
      requires Shaped()
    {
      seq(d, i requires 0 <= i < d => ColumnOf(i))
    }

    /** keys and values as a table of counters. */
    ghost function SpreadRows(): Rows
      requires Shaped()
      reads keys, values
    {
      seq(d, i requires 0 <= i < d reads keys, values =>
        seq(w, j requires 0 <= j < w reads keys, values => CounterAt(i, j)))
    }

    ghost function SpreadEstimate(f: Key): uint32
      requires Shaped()
      reads keys, values
    {
      Estimate(SpreadRows(), Columns(), f)
    }

    method EstimateOf(flow: Key) returns (estimate: uint32)
      requires Shaped()
      ensures estimate == SpreadEstimate(flow)
    {
      estimate := 0;
      var i := 0;
      while i < d
        invariant 0 <= i <= d
        invariant estimate == EstimateUpTo(SpreadRows(), Columns(), flow, i)
      {
        var j := ColumnOf(i)(flow);
        assert SpreadRows()[i][Columns()[i](flow)] == CounterAt(i, j);
        estimate := Improve(estimate, Counter(keys[i, j], values[i, j]), flow);
        i := i + 1;
      }
    }

    method Query(flow: Key) returns (r: uint64)
      requires Shaped()
      ensures r == Max(1, SpreadEstimate(flow))
    {
      var estimate := EstimateOf(flow);
      r := Max(1, estimate);
    }

    /** No flow is estimated above the weight that was let in for it in some row. */
    lemma EstimateWithinAward(f: Key)
      requires Valid()
      ensures SpreadEstimate(f) > 0 ==> exists i :: 0 <= i < d && SpreadEstimate(f) <= Award(i, f)
    {
      EstimateIsMax(SpreadRows(), Columns(), f, d);
      if SpreadEstimate(f) > 0 {
        var i :| 0 <= i < d && SpreadEstimate(f) == RowEstimate(SpreadRows()[i], Columns()[i], f);
        assert ValueOk(i, ColumnOf(i)(f));
      }
    }

    /** Every key with a positive value. */
    method LiveFlows() returns (flows: set<Key>)
      requires Shaped()
      ensures forall f :: SpreadEstimate(f) > 0 ==> f in flows
      ensures forall f :: f in flows ==> exists i, j :: 0 <= i < d && 0 <= j < w && values[i, j] > 0 && keys[i, j] == f
    {
      flows := {};
      var i := 0;
      while i < d
        invariant 0 <= i <= d
        invariant forall r, c :: 0 <= r < i && 0 <= c < w && values[r, c] > 0 ==> keys[r, c] in flows
        invariant forall f :: f in flows ==>
                    exists r, c :: 0 <= r < d && 0 <= c < w && values[r, c] > 0 && keys[r, c] == f
      {
        var j := 0;
        while j < w
          invariant 0 <= j <= w
          invariant forall r, c :: 0 <= r < d && 0 <= c < w && Before(r, c, i, j) && values[r, c] > 0 ==>
                      keys[r, c] in flows
          invariant forall f :: f in flows ==>
                      exists r, c :: 0 <= r < d && 0 <= c < w && values[r, c] > 0 && keys[r, c] == f
        {
          if values[i, j] > 0 {
            flows := flows + {keys[i, j]};
          }
          j := j + 1;
        }
        i := i + 1;
      }
      forall f | SpreadEstimate(f) > 0 ensures f in flows {
        EstimateIsMax(SpreadRows(), Columns(), f, d);
        var r :| 0 <= r < d && SpreadEstimate(f) == RowEstimate(SpreadRows()[r], Columns()[r], f);
        assert CounterAt(r, ColumnOf(r)(f)) == Counter(f, SpreadEstimate(f));
      }
    }

    method EstimateAll(flows: set<Key>) returns (estimates: map<Key, uint32>)
      requires Shaped()
      ensures estimates.Keys == flows
      ensures forall f :: f in flows ==> estimates[f] == SpreadEstimate(f)
    {
      estimates := map[];
      var todo := flows;
      while todo != {}
        invariant todo <= flows && estimates.Keys == flows - todo
        invariant forall f :: f in flows - todo ==> estimates[f] == SpreadEstimate(f)
      {
        var f :| f in todo;
        var estimate := EstimateOf(f);
        estimates := estimates[f := estimate];
        todo := todo - {f};
      }
    }

    /** Exactly the flows whose estimate reaches the threshold, each once, with the value Query gives it, in
        non-increasing order. */
    method HeavyHitters() returns (list: seq<Heavy>)
      requires Shaped()
      ensures IsReport(list, threshold, SpreadRows(), Columns())
    {
      var flows := LiveFlows();
      var estimates := EstimateAll(flows);
      list := Report(estimates, threshold, SpreadRows(), Columns());
    }

    /** What Reset leaves of a cell: no registers, key or value, but the old p. */
    function Blank(c: Cell): Cell {
      Cell(seq(|c.regs|, _ => 0), c.p, Zeros(fs), 0)
    }

    /** A cell during Reset, which has cleared the cells before (i, j) and left the others intact. */
    ghost predicate CellOk(r: nat, c: nat, i: int, j: int)
      requires Shaped() && r < d && c < w
      reads this`ever, keys, cm[r][c], cm[r][c].hll
    {
      && |keys[r, c]| == fs && cm[r][c].Valid() && cm[r][c].log.everOffered == Offered(ever, ColumnOf(r), c)
      && (Before(r, c, i, j) ==> cm[r][c].log.offered == [] && cm[r][c].log.cleared)
    }

    ghost predicate ClearedUpTo(i: int, j: int)
      reads this`ever, keys, Samplers(), Registers()
    {
      Shaped() && Separate() && forall r, c :: 0 <= r < d && 0 <= c < w ==> CellOk(r, c, i, j)
    }

    method ClearCell(i: nat, j: nat)
      requires ClearedUpTo(i, j) && i < d && j < w
      modifies keys, values, cm[i][j], cm[i][j].hll
      ensures ClearedUpTo(i, j + 1)
      ensures View(i, j) == Blank(old(View(i, j)))
      ensures forall r, c :: 0 <= r < d && 0 <= c < w && (r != i || c != j) ==> View(r, c) == old(View(r, c))
    {
      assert CellOk(i, j, i, j);
      cm[i][j].ClearRegisters();
      keys[i, j] := Zeros(|keys[i, j]|);
      values[i, j] := 0;
      assert cm[i][j].hll[..] == seq(cm[i][j].hll.Length, _ => 0);
      ghost var next := j + 1;
      forall r, c | 0 <= r < d && 0 <= c < w ensures CellOk(r, c, i, next) {
        assert old(CellOk(r, c, i, j));
      }
    }

    method ClearRow(i: nat)
      requires ClearedUpTo(i, 0) && i < d
      modifies keys, values, Samplers(), Registers()
      ensures ClearedUpTo(i + 1, 0)
      ensures forall c :: 0 <= c < w ==> TableView()[i][c] == Blank(old(TableView())[i][c])
      ensures forall r :: 0 <= r < d && r != i ==> TableView()[r] == old(TableView())[r]
    {
      ghost var t := TableView();
      var j := 0;
      while j < w
        invariant 0 <= j <= w && ClearedUpTo(i, j)
        invariant forall c :: 0 <= c < j ==> View(i, c) == Blank(t[i][c])
        invariant forall r, c :: 0 <= r < d && 0 <= c < w && (r != i || c >= j) ==> View(r, c) == t[r][c]
      {
        ClearCell(i, j);
        j := j + 1;
      }
      ghost var next := i + 1;
      forall r, c | 0 <= r < d && 0 <= c < w ensures CellOk(r, c, next, 0) {
        assert CellOk(r, c, i, w);
      }
      forall r | 0 <= r < d && r != i ensures RowView(r) == t[r] {
      }
    }

    lemma ReadyToClear()
      requires Valid()
      ensures ClearedUpTo(0, 0)
    {
      forall r, c | 0 <= r < d && 0 <= c < w ensures CellOk(r, c, 0, 0) {
        assert SamplerOk(r, c, Run()) && ValueOk(r, c);
      }
    }

    lemma ClearedIsValid()
      requires ClearedUpTo(d, 0) && history == [] && wasReset && awarded == map[]
      requires forall r, c :: 0 <= r < d && 0 <= c < w ==> values[r, c] == 0
      ensures Valid()
    {
      forall r, c | 0 <= r < d && 0 <= c < w
        ensures cm[r][c].Valid() && cm[r][c].log.offered == [] && cm[r][c].log.cleared == wasReset
        ensures cm[r][c].log.everOffered == Offered(ever, ColumnOf(r), c) && |keys[r, c]| == fs
      {
        assert CellOk(r, c, d, 0);
      }
      EmptyIsValid();
    }

    /** Every cell is as Blank says; what was ever inserted is not forgotten by p. */
    method Reset()
      requires Valid()
      modifies this`history, this`wasReset, this`awarded, keys, values, Samplers(), Registers()
      ensures Valid() && history == [] && wasReset && awarded == map[]
      ensures forall i, j :: 0 <= i < d && 0 <= j < w ==> TableView()[i][j] == Blank(old(TableView())[i][j])
    {
      ReadyToClear();
      ghost var t := TableView();
      var i := 0;
      while i < d
        invariant 0 <= i <= d && ClearedUpTo(i, 0)
        invariant forall r, c :: 0 <= r < i && 0 <= c < w ==> TableView()[r][c] == Blank(t[r][c])
        invariant forall r :: i <= r < d ==> TableView()[r] == t[r]
      {
        ClearRow(i);
        i := i + 1;
      }
      forall r, c | 0 <= r < d && 0 <= c < w ensures values[r, c] == 0 {
        assert TableView()[r][c] == View(r, c);
      }
      history, wasReset, awarded := [], true, map[];
      ClearedIsValid();
    }

    /** Reset forgets to restore p: afterwards a sampler's ledger is right exactly when p was 1. */
    lemma LedgerAfterReset(s: Sampler, c: Cell)
      requires s.Ok() && |c.regs| == s.m
      ensures Ledger(s, Blank(c).regs, Blank(c).p) <==> c.p == 1.0
    {
      WeightSumOfZeros(s, Blank(c).regs);
      Scaled(s.m as real, c.p, 1.0);
    }

    /** Over every run, with any number of resets: a further Reset leaves the ledger of cell (i, j) right
        exactly when p stands at 1, which for a base up to 1 means that no accepted element ever lowered it.
        For a base below 1, or above 1 with no register ever at the cap, it means that no observation since
        construction was hashed to the cell. */
    lemma ResetBreaksIff(i: nat, j: nat)
      requires Valid() && i < d && j < w
      ensures var c, g := View(i, j), cm[i][j];
              var kept := Ledger(g.s, Blank(c).regs, Blank(c).p);
              && (kept <==> c.p == 1.0) && (0.0 < g.s.base <= 1.0 ==> (kept <==> !g.log.lowered))
              && (g.OnlyOnceFull() ==> (kept <==> forall o :: o in ever ==> ColumnOf(i)(o.flow) != j))
      ensures cm[i][j].s.base > 1.0 && cm[i][j].s.maxValue > 33 ==> cm[i][j].OnlyOnceFull()
    {
      assert SamplerOk(i, j, Run());
      LedgerAfterReset(cm[i][j].s, View(i, j));
      NothingOffered(ever, ColumnOf(i), j);
    }

    /** Bases for which one observation is enough: below 1, and above 1 if the cap is out of reach. */
    predicate Fragile(s: Sampler) {
      0.0 < s.base < 1.0 || (s.base > 1.0 && s.maxValue > 33)
    }

    /** One Insert into any sketch and one Reset leave the ledgers of the flow's cells wrong. */
    method InsertThenReset(flow: Key, elem: Key, size: uint32)
      requires Valid() && |flow| == fs
      modifies this`history, this`ever, this`wasReset, this`awarded, this`drawn, keys, values, Samplers(), Registers()
      ensures Valid() && history == []
      ensures forall i :: 0 <= i < d && Fragile(cm[i][ColumnOf(i)(flow)].s) ==> !RowBalanced(i, TableView()[i])
    {
      var _, _ := Insert(flow, elem, size);
      ghost var t := TableView();
      forall i | 0 <= i < d && Fragile(cm[i][ColumnOf(i)(flow)].s)
        ensures var c := t[i][ColumnOf(i)(flow)];
                !Ledger(cm[i][ColumnOf(i)(flow)].s, Blank(c).regs, Blank(c).p)
      {
        ResetBreaksIff(i, ColumnOf(i)(flow));
        assert Observation(flow, elem) in ever;
      }
      Reset();
    }

    /** A flow that is alone with its digest in some row is estimated at no less than the whole weight awarded
        to it there, if that fits 32 bits. */
    lemma LonelyIsCredited(i: nat, f: Key)
      requires Valid() && i < d && |f| == fs && Lonely(i, f, history) && Award(i, f) < TWO_32
      ensures Award(i, f) <= SpreadEstimate(f)
    {
      var j := hash(f, seeds[i]) % w;
      assert LonelyAt(i, TableView(), awarded, history) && Credited(i, TableView()[i], awarded, f);
      assert TableView()[i][j] == View(i, j);
      EstimateIsMax(SpreadRows(), Columns(), f, d);
      assert RowEstimate(SpreadRows()[i], Columns()[i], f) == if keys[i, j] == f then values[i, j] else 0;
    }

    lemma {:induction false} OfferedIff(h: seq<Observation>, i: nat, j: nat, e: Key)
      requires w > 0 && i < |seeds|
      ensures e in Offered(h, ColumnOf(i), j) <==>
                exists o :: o in h && hash(o.flow, seeds[i]) % w == j && o.flow + o.elem == e
    {
      if h != [] {
        OfferedIff(h[..|h| - 1], i, j, e);
        assert forall o :: o in h <==> o in h[..|h| - 1] || o == h[|h| - 1];
      }
    }

    /** An observation whose flow has the digest j in row i, and whose flow and element together have the digest
        k among the registers. */
    predicate Hits(o: Observation, i: nat, j: nat, k: nat)
      requires Shaped() && i < d && j < w
    {
      var s := cm[i][j].s;
      hash(o.flow, seeds[i]) % w == j && s.hash(o.flow + o.elem, s.routeSeed) % s.m == k
    }

    /** Every register, over every run: it stands above r exactly when since the last Reset some observation
        hit it with a ranking digest below 2^(32 - r). */
    lemma CellRegisterAbove(i: nat, j: nat, k: nat, r: uint32)
      requires Valid() && i < d && j < w && k < cm[i][j].s.m && r < cm[i][j].s.maxValue
      ensures var s := cm[i][j].s;
              View(i, j).regs[k] > r <==>
                exists o :: o in history && Hits(o, i, j, k) && Surpasses(s.hash(o.flow + o.elem, s.rankSeed), r)
    {
      assert SamplerOk(i, j, Run());
      var s, offered := cm[i][j].s, cm[i][j].log.offered;
      RegisterAbove(s, offered, k, r);
      forall e ensures e in offered <==>
          exists o :: o in history && hash(o.flow, seeds[i]) % w == j && o.flow + o.elem == e
      {
        OfferedIff(history, i, j, e);
      }
    }

    /** Without a Reset every ledger is right, over every run. */
    lemma NeverResetIsBalanced()
      requires Valid() && !wasReset
      ensures Balanced(TableView())
    {
      forall r | 0 <= r < d ensures RowBalanced(r, RowView(r)) {
        forall c | 0 <= c < w ensures Ledger(cm[r][c].s, RowView(r)[c].regs, RowView(r)[c].p) {
          assert SamplerOk(r, c, Run());
        }
      }
    }
  }
}
