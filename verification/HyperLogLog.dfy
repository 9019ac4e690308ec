/** The sampled HyperLogLog of super_spread.go: registers, the incrementally maintained update
    probability p, and what both mean. Floats are exact reals. */
module HyperLogLog {
  import opened Words

  function Pow(b: real, n: nat): real {
    if n == 0 then 1.0 else b * Pow(b, n - 1)
  }

  lemma Shrinks(b: real, x: real)
    requires 0.0 < b <= 1.0 && 0.0 < x
    ensures 0.0 < b * x <= x
  {
    NonNegative(b, x);
    NonNegative(1.0 - b, x);
    assert (1.0 - b) * x == x - b * x;
    assert b * x / b == x;
  }

  lemma NonNegative(a: real, b: real)
    requires 0.0 <= a && 0.0 <= b
    ensures 0.0 <= a * b
  {
  }

  lemma {:induction false} PowInUnit(b: real, n: nat)
    requires 0.0 < b <= 1.0
    ensures 0.0 < Pow(b, n) <= 1.0
  {
    if n > 0 {
      PowInUnit(b, n - 1);
      Shrinks(b, Pow(b, n - 1));
    }
  }

  lemma {:induction false} PowPositive(b: real, n: nat)
    requires 0.0 < b
    ensures 0.0 < Pow(b, n)
  {
    if n > 0 {
      PowPositive(b, n - 1);
      Positive(b, Pow(b, n - 1));
    }
  }

  lemma Positive(a: real, b: real)
    requires 0.0 < a && 0.0 < b
    ensures 0.0 < a * b
  {
  }

  lemma {:induction false} PowNonZero(b: real, n: nat)
    requires b != 0.0
    ensures Pow(b, n) != 0.0
  {
    if n > 0 {
      PowNonZero(b, n - 1);
    }
  }

  lemma {:induction false} PowAboveOne(b: real, n: nat)
    requires b > 1.0 && n > 0
    ensures Pow(b, n) > 1.0
  {
    assert Pow(b, 1) == b * Pow(b, 0);
    if n > 1 {
      PowAboveOne(b, n - 1);
      Positive(b - 1.0, Pow(b, n - 1));
      assert (b - 1.0) * Pow(b, n - 1) == b * Pow(b, n - 1) - Pow(b, n - 1);
    }
  }

  // Geometric hash.

  /** The number of leading zero bits of a 32-bit word. */
  function LeadingZeros(x: uint32): nat
    decreases TWO_32 - x
  {
    if x == 0 then 32 else if x >= 0x8000_0000 then 0 else 1 + LeadingZeros(2 * x)
  }

  /** A word has at least r leading zeros exactly when it is below 2^(32 - r). */
  lemma {:induction false} LeadingZerosAtLeast(x: uint32, r: nat)
    requires r <= 32
    ensures LeadingZeros(x) >= r <==> x < Pow2(32 - r)
    decreases r
  {
    assert Pow2(32) == TWO_32 && Pow2(31) == 0x8000_0000 by {
      Pow2Values();
    }
    Pow2Mono(0, 32 - r);
    if r > 0 {
      Pow2Mono(32 - r, 31);
      if 0 < x < 0x8000_0000 {
        LeadingZerosAtLeast(2 * x, r - 1);
      }
    }
  }

  lemma Pow2Values()
    ensures Pow2(31) == 0x8000_0000 && Pow2(32) == TWO_32
  {
    assert Pow2(4) == 16;
    assert Pow2(8) == 256;
    assert Pow2(12) == 4096;
    assert Pow2(16) == 0x1_0000;
    assert Pow2(20) == 0x10_0000;
    assert Pow2(24) == 0x100_0000;
    assert Pow2(28) == 0x1000_0000;
  }

  lemma {:induction false} LeadingZerosBound(x: uint32)
    ensures LeadingZeros(x) <= 32
  {
    LeadingZerosAtLeast(x, 32);
    assert Pow2(0) == 1;
  }

  /** leadingZeros32: shifts left until bit 31 is set. */
  method CountLeadingZeros(x: uint32) returns (n: uint32)
    ensures n == LeadingZeros(x)
  {
    LeadingZerosBound(x);
    if x == 0 {
      return 32;
    }
    n := 0;
    var y := x;
    while y < 0x8000_0000
      invariant 0 < y < TWO_32 && LeadingZeros(x) - LeadingZeros(y) == n
      decreases TWO_32 - y
    {
      n := n + 1;
      y := 2 * y;
    }
  }

  /** The parameters of one sampler, with its hash as an arbitrary function. The base may be any number:
      the bookkeeping of p does not depend on it. With a positive base p is positive, with one up to 1 it
      is a probability, above 1 it grows. */
  datatype Sampler = Sampler(hash: (Key, uint32) -> uint32, rankSeed: uint32, routeSeed: uint32,
                             m: uint32, base: real, maxValue: uint32)
  {
    predicate Ok() {
      m > 0 && maxValue > 0
    }

    /** The register an element belongs to. */
    function Route(e: Key): uint32
      requires Ok()
    {
      hash(e, routeSeed) % m
    }

    /** geometricHash: one more than the leading zeros, capped. */
    function Rank(e: Key): (r: uint32)
      requires Ok()
      ensures 0 < r <= maxValue && r <= 33
    {
      LeadingZerosBound(hash(e, rankSeed));
      Min(LeadingZeros(hash(e, rankSeed)) + 1, maxValue)
    }

    /** With base 1/2, the chance that a fresh element would raise a register that stands at r. */
    function Weight(r: uint32): real
      requires Ok()
    {
      if r < maxValue then Pow(base, r) else 0.0
    }
  }

  /** (1 << size) - 1 in 32-bit arithmetic. */
  function MaxValueFor(size: uint32): uint32 {
    if size >= 32 then TWO_32 - 1
    else
      Pow2Mono(size, 32);
      Pow2Values();
      Pow2(size) - 1
  }

  /** The cap of the documented defaults, and of 32 bits and more, where the shift gives 0. */
  lemma MaxValues()
    ensures MaxValueFor(1) == 1 && MaxValueFor(5) == 31 && MaxValueFor(8) == 255
    ensures forall size: uint32 :: size >= 32 ==> MaxValueFor(size) == 0xffff_ffff
    ensures forall size: uint32 :: size < 32 ==> MaxValueFor(size) + 1 == Pow2(size)
  {
    assert Pow2(4) == 16;
    assert Pow2(8) == 256;
  }

  // Rank, register and acceptance in terms of the two digests.

  /** A digest with so many leading zeros that it raises a register from r, if the cap allows. */
  predicate Surpasses(digest: uint32, r: uint32) {
    r <= 32 && digest < Pow2(32 - r)
  }

  /** The rank is above r exactly when r is below the cap and the digest below 2^(32 - r). */
  lemma RankAbove(s: Sampler, e: Key, r: uint32)
    requires s.Ok()
    ensures s.Rank(e) > r <==> r < s.maxValue && Surpasses(s.hash(e, s.rankSeed), r)
  {
    if r <= 32 {
      LeadingZerosAtLeast(s.hash(e, s.rankSeed), r);
    }
  }

  /** The rank v in terms of the digest: 2^(32 - v) <= digest < 2^(33 - v), or the cap. */
  lemma RankBrackets(s: Sampler, e: Key)
    requires s.Ok()
    ensures Surpasses(s.hash(e, s.rankSeed), s.Rank(e) - 1)
    ensures s.Rank(e) < s.maxValue ==> !Surpasses(s.hash(e, s.rankSeed), s.Rank(e))
  {
    RankAbove(s, e, s.Rank(e) - 1);
    RankAbove(s, e, s.Rank(e));
  }

  // Registers as maxima.

  /** The largest rank among the elements of h that belong to register k. */
  function MaxRank(s: Sampler, h: seq<Key>, k: nat): uint32
    requires s.Ok()
  {
    if h == [] then 0
    else
      var e := h[|h| - 1];
      var rest := MaxRank(s, h[..|h| - 1], k);
      if s.Route(e) == k then Max(rest, s.Rank(e)) else rest
  }

  lemma {:induction false} MaxRankIsMax(s: Sampler, h: seq<Key>, k: nat)
    requires s.Ok()
    ensures forall e :: e in h && s.Route(e) == k ==> s.Rank(e) <= MaxRank(s, h, k)
    ensures MaxRank(s, h, k) > 0 ==> exists e :: e in h && s.Route(e) == k && s.Rank(e) == MaxRank(s, h, k)
    ensures MaxRank(s, h, k) <= s.maxValue
  {
    if h != [] {
      var rest, e := h[..|h| - 1], h[|h| - 1];
      MaxRankIsMax(s, rest, k);
      assert h == rest + [e];
      if MaxRank(s, h, k) > 0 && MaxRank(s, h, k) == MaxRank(s, rest, k) {
        var w :| w in rest && s.Route(w) == k && s.Rank(w) == MaxRank(s, rest, k);
        assert w in h;
      }
    }
  }

  /** A register stands above r exactly when some element with its route and a digest below 2^(32 - r) was
      offered. */
  lemma {:induction false} RegisterAbove(s: Sampler, h: seq<Key>, k: nat, r: uint32)
    requires s.Ok() && r < s.maxValue
    ensures MaxRank(s, h, k) > r <==>
              exists e :: e in h && s.hash(e, s.routeSeed) % s.m == k && Surpasses(s.hash(e, s.rankSeed), r)
  {
    MaxRankIsMax(s, h, k);
    forall e | e in h ensures s.Rank(e) > r <==> Surpasses(s.hash(e, s.rankSeed), r) {
      RankAbove(s, e, r);
    }
  }

  lemma {:induction false} OfferStep(s: Sampler, h: seq<Key>, e: Key, k: nat)
    requires s.Ok()
    ensures MaxRank(s, h + [e], k) == if s.Route(e) == k then Max(MaxRank(s, h, k), s.Rank(e)) else MaxRank(s, h, k)
  {
    assert (h + [e])[..|h|] == h;
  }

  lemma {:induction false} OfferAll(s: Sampler, h: seq<Key>, e: Key, regs: seq<uint32>)
    requires s.Ok() && forall l :: 0 <= l < |regs| ==> regs[l] == MaxRank(s, h, l)
    ensures forall l :: 0 <= l < |regs| ==>
              MaxRank(s, h + [e], l) == if l == s.Route(e) then Max(regs[l], s.Rank(e)) else regs[l]
  {
    forall l | 0 <= l < |regs|
      ensures MaxRank(s, h + [e], l) == if l == s.Route(e) then Max(regs[l], s.Rank(e)) else regs[l]
    {
      OfferStep(s, h, e, l);
    }
  }

  /** Registers depend only on the set of elements offered, not on their order or number. */
  lemma {:induction false} RegistersIgnoreOrderAndDuplicates(s: Sampler, g: seq<Key>, h: seq<Key>, k: nat)
    requires s.Ok()
    requires forall e :: e in g <==> e in h
    ensures MaxRank(s, g, k) == MaxRank(s, h, k)
  {
    MaxRankIsMax(s, g, k);
    MaxRankIsMax(s, h, k);
  }

  // The ledger: m * p against the sum of the registers' weights.

  function WeightSum(s: Sampler, regs: seq<uint32>): real
    requires s.Ok()
  {
    if regs == [] then 0.0 else WeightSum(s, regs[..|regs| - 1]) + s.Weight(regs[|regs| - 1])
  }

  lemma {:induction false} WeightSumUpdate(s: Sampler, regs: seq<uint32>, k: nat, v: uint32)
    requires s.Ok() && k < |regs|
    ensures WeightSum(s, regs[k := v]) == WeightSum(s, regs) - s.Weight(regs[k]) + s.Weight(v)
  {
    var n := |regs| - 1;
    if k == n {
      assert regs[k := v][..n] == regs[..n];
    } else {
      assert regs[k := v][..n] == regs[..n][k := v];
      WeightSumUpdate(s, regs[..n], k, v);
    }
  }

  predicate BelowCap(s: Sampler, regs: seq<uint32>) {
    forall k :: 0 <= k < |regs| ==> regs[k] < s.maxValue
  }

  lemma WeightBounds(s: Sampler, r: uint32)
    requires s.Ok() && s.base > 0.0
    ensures 0.0 <= s.Weight(r) && (s.Weight(r) > 0.0 <==> r < s.maxValue)
    ensures s.base <= 1.0 ==> s.Weight(r) <= 1.0
    ensures s.base > 1.0 && r < s.maxValue ==> s.Weight(r) >= 1.0 && (s.Weight(r) > 1.0 <==> r > 0)
  {
    PowPositive(s.base, r);
    if s.base <= 1.0 {
      PowInUnit(s.base, r);
    } else if r > 0 {
      PowAboveOne(s.base, r);
    }
  }

  /** For a positive base the sum is at least 0, and positive as soon as one register is below the cap. It
      is at most m for a base up to 1. For a base above 1 and no register at the cap it is at least m, and
      above m once a register was raised. */
  lemma {:induction false} WeightSumBounds(s: Sampler, regs: seq<uint32>)
    requires s.Ok() && s.base > 0.0
    ensures 0.0 <= WeightSum(s, regs)
    ensures (exists k :: 0 <= k < |regs| && regs[k] < s.maxValue) ==> WeightSum(s, regs) > 0.0
    ensures s.base <= 1.0 ==> WeightSum(s, regs) <= |regs| as real
    ensures s.base > 1.0 && BelowCap(s, regs) ==>
              && WeightSum(s, regs) >= |regs| as real
              && (WeightSum(s, regs) > |regs| as real <==> exists k :: 0 <= k < |regs| && regs[k] > 0)
  {
    if regs != [] {
      WeightSumBounds(s, regs[..|regs| - 1]);
      WeightBounds(s, regs[|regs| - 1]);
    }
  }

  lemma {:induction false} WeightSumOfZeros(s: Sampler, regs: seq<uint32>)
    requires s.Ok() && forall k :: 0 <= k < |regs| ==> regs[k] == 0
    ensures WeightSum(s, regs) == |regs| as real
  {
    if regs != [] {
      WeightSumOfZeros(s, regs[..|regs| - 1]);
    }
  }

  function RegisterSum(regs: seq<uint32>): nat {
    if regs == [] then 0 else RegisterSum(regs[..|regs| - 1]) + regs[|regs| - 1]
  }

  lemma {:induction false} RegisterSumUpdate(regs: seq<uint32>, k: nat, v: uint32)
    requires k < |regs|
    ensures RegisterSum(regs[k := v]) == RegisterSum(regs) - regs[k] + v
  {
    var n := |regs| - 1;
    if k == n {
      assert regs[k := v][..n] == regs[..n];
    } else {
      assert regs[k := v][..n] == regs[..n][k := v];
      RegisterSumUpdate(regs[..n], k, v);
    }
  }

  lemma {:induction false} RegisterSumBound(regs: seq<uint32>, cap: nat)
    requires forall k :: 0 <= k < |regs| ==> regs[k] <= cap
    ensures RegisterSum(regs) <= |regs| * cap
  {
    if regs != [] {
      RegisterSumBound(regs[..|regs| - 1], cap);
      assert |regs| * cap == (|regs| - 1) * cap + cap;
    }
  }

  lemma WeightFull(s: Sampler, r: uint32)
    requires s.Ok() && 0.0 < s.base < 1.0
    ensures s.Weight(r) == 1.0 <==> r == 0
  {
    if r > 0 {
      PowInUnit(s.base, r - 1);
      assert Pow(s.base, r) == s.base * Pow(s.base, r - 1);
      assert (1.0 - s.base) * Pow(s.base, r - 1) > 0.0;
    }
  }

  lemma {:induction false} FullWeight(s: Sampler, regs: seq<uint32>)
    requires s.Ok() && 0.0 < s.base < 1.0
    ensures WeightSum(s, regs) == |regs| as real <==> forall k :: 0 <= k < |regs| ==> regs[k] == 0
  {
    if regs != [] {
      var rest, r := regs[..|regs| - 1], regs[|regs| - 1];
      FullWeight(s, rest);
      WeightSumBounds(s, rest);
      WeightBounds(s, r);
      WeightFull(s, r);
      assert (forall k :: 0 <= k < |regs| ==> regs[k] == 0) <==>
               (r == 0 && forall k :: 0 <= k < |rest| ==> rest[k] == 0);
    }
  }

  lemma MeanStep(m: real, p: real, a: real, b: real)
    requires m > 0.0
    ensures m * (p - a / m + b / m) == m * p - a + b
    ensures m * (p - a / m) == m * p - a
    ensures m * (p + b / m) == m * p + b
  {
    assert m * (a / m) == a && m * (b / m) == b;
  }

  /** p is the mean weight of the registers. */
  ghost predicate Ledger(s: Sampler, regs: seq<uint32>, p: real)
    requires s.Ok()
  {
    s.m as real * p == WeightSum(s, regs)
  }

  /** What an element that would raise register k reads as its sampling probability: a positive number; at
      most 1 for a base up to 1; for a base above 1 and no register at the cap at least 1, and above 1
      once anything was accepted. */
  lemma ProbabilityInUnit(s: Sampler, regs: seq<uint32>, p: real, k: nat)
    requires s.Ok() && s.base > 0.0 && |regs| == s.m && Ledger(s, regs, p)
    requires k < |regs| && regs[k] < s.maxValue
    ensures 0.0 < p
    ensures s.base <= 1.0 ==> p <= 1.0
    ensures s.base > 1.0 && BelowCap(s, regs) ==>
              p >= 1.0 && (p > 1.0 <==> exists k :: 0 <= k < |regs| && regs[k] > 0)
  {
    WeightSumBounds(s, regs);
    MeanAgainstOne(s.m as real, p, WeightSum(s, regs));
  }

  lemma MeanAgainstOne(m: real, p: real, sum: real)
    requires m > 0.0 && m * p == sum
    ensures sum > 0.0 <==> p > 0.0
    ensures sum > m <==> p > 1.0
    ensures sum < m <==> p < 1.0
  {
    Scaled(m, p, 0.0);
    Scaled(m, p, 1.0);
  }

  /** encode may report p for an element that would raise register k. */
  ghost predicate MayReport(s: Sampler, regs: seq<uint32>, k: nat, p: real)
    requires s.Ok()
  {
    && |regs| == s.m && (forall l :: 0 <= l < |regs| ==> regs[l] <= s.maxValue)
    && k < |regs| && regs[k] < s.maxValue && Ledger(s, regs, p)
  }

  /** For a positive base, p is a probability whatever the registers hold exactly when the base is at most
      1, or no rank is below the cap. */
  lemma UnitProbabilityIff(s: Sampler)
    requires s.Ok() && s.base > 0.0
    ensures (forall regs, k, p :: MayReport(s, regs, k, p) ==> 0.0 < p <= 1.0) <==> s.base <= 1.0 || s.maxValue == 1
  {
    if s.base <= 1.0 || s.maxValue == 1 {
      forall regs, k, p | MayReport(s, regs, k, p) ensures 0.0 < p <= 1.0 {
        ProbabilityInUnit(s, regs, p, k);
        if s.maxValue == 1 {
          SameForAnyBase(s, s.(base := 1.0), regs);
          ProbabilityInUnit(s.(base := 1.0), regs, p, k);
        }
      }
    } else {
      var regs := seq(s.m, _ => 1);
      WeightSumOfSame(s, regs, 1);
      assert Pow(s.base, 1) == s.base * Pow(s.base, 0);
      assert MayReport(s, regs, 0, s.base);
    }
  }

  lemma {:induction false} SameForAnyBase(s: Sampler, t: Sampler, regs: seq<uint32>)
    requires s.Ok() && t.Ok() && s.maxValue == t.maxValue == 1
    ensures WeightSum(s, regs) == WeightSum(t, regs)
  {
    if regs != [] {
      SameForAnyBase(s, t, regs[..|regs| - 1]);
    }
  }

  lemma {:induction false} WeightSumOfSame(s: Sampler, regs: seq<uint32>, v: uint32)
    requires s.Ok() && forall k :: 0 <= k < |regs| ==> regs[k] == v
    ensures WeightSum(s, regs) == |regs| as real * s.Weight(v)
  {
    if regs != [] {
      WeightSumOfSame(s, regs[..|regs| - 1], v);
    }
  }

  /** Registers at the cap weigh nothing, so that p can be below 1 for base 2 as well, although a rank
      below the cap was accepted. */
  lemma CappedRegistersLowerP(s: Sampler, regs: seq<uint32>, p: real)
    requires s.Ok() && s.base == 2.0 && s.m == 4 && s.maxValue > 1
    requires regs == [1, s.maxValue, s.maxValue, s.maxValue] && Ledger(s, regs, p)
    ensures p == 0.5
  {
    assert Pow(2.0, 1) == 2.0 * Pow(2.0, 0);
    assert regs[..3][..2] == regs[..2] && regs[..2][..1] == regs[..1] == [1];
    assert WeightSum(s, [1]) == 2.0;
    assert WeightSum(s, regs[..2]) == 2.0;
    assert WeightSum(s, regs[..3]) == 2.0;
  }

  /** p after encode has raised a register from its value to v. */
  function Moved(s: Sampler, p: real, from: uint32, to: uint32): real
    requires s.Ok()
  {
    var q := p - Pow(s.base, from) / s.m as real;
    if to < s.maxValue then q + Pow(s.base, to) / s.m as real else q
  }

  lemma MovedByWeights(s: Sampler, p: real, from: uint32, to: uint32)
    requires s.Ok() && from < s.maxValue
    ensures s.m as real * Moved(s, p, from, to) == s.m as real * p - s.Weight(from) + s.Weight(to)
  {
    MeanStep(s.m as real, p, Pow(s.base, from), Pow(s.base, to));
  }

  lemma RaiseKeepsLedger(s: Sampler, regs: seq<uint32>, p: real, k: nat, v: uint32)
    requires s.Ok() && |regs| == s.m && k < |regs| && regs[k] < v <= s.maxValue
    requires Ledger(s, regs, p)
    ensures Ledger(s, regs[k := v], Moved(s, p, regs[k], v))
  {
    MovedByWeights(s, p, regs[k], v);
    WeightSumUpdate(s, regs, k, v);
  }

  /** A higher register weighs no more for a base up to 1, and less for one below 1; below the cap it
      weighs more for a base above 1. */
  lemma WeightMoves(s: Sampler, from: uint32, to: uint32)
    requires s.Ok() && s.base > 0.0 && from < to <= s.maxValue
    ensures s.base <= 1.0 ==> s.Weight(to) <= s.Weight(from)
    ensures s.base < 1.0 ==> s.Weight(to) < s.Weight(from)
    ensures s.base > 1.0 && to < s.maxValue ==> s.Weight(to) > s.Weight(from)
  {
    WeightBounds(s, from);
    if s.base <= 1.0 {
      PowDrops(s.base, from, to);
    } else {
      PowRises(s.base, from, to);
    }
  }

  lemma {:induction false} PowRises(b: real, m: nat, n: nat)
    requires b > 1.0 && m < n
    ensures Pow(b, n) > Pow(b, m)
    decreases n
  {
    PowPositive(b, n - 1);
    Positive(b - 1.0, Pow(b, n - 1));
    assert (b - 1.0) * Pow(b, n - 1) == b * Pow(b, n - 1) - Pow(b, n - 1);
    if m < n - 1 {
      PowRises(b, m, n - 1);
    }
  }

  lemma {:induction false} PowDrops(b: real, m: nat, n: nat)
    requires 0.0 < b <= 1.0 && m < n
    ensures Pow(b, n) <= Pow(b, m) && (b < 1.0 ==> Pow(b, n) < Pow(b, m))
    decreases n
  {
    PowInUnit(b, n - 1);
    StepDown(b, Pow(b, n - 1), Pow(b, n));
    if m < n - 1 {
      PowDrops(b, m, n - 1);
    }
  }

  lemma StepDown(b: real, x: real, y: real)
    requires 0.0 < b <= 1.0 && 0.0 < x && y == b * x
    ensures y <= x && (b < 1.0 ==> y < x)
  {
    Shrinks(b, x);
    if b < 1.0 {
      assert (1.0 - b) * x > 0.0;
      assert (1.0 - b) * x == x - y;
    }
  }

  /** encode moves p down or up as the raised register weighs less or more than before. */
  lemma MovedAsWeight(s: Sampler, p: real, from: uint32, to: uint32)
    requires s.Ok() && from < to <= s.maxValue
    ensures Moved(s, p, from, to) < p <==> s.Weight(to) < s.Weight(from)
    ensures Moved(s, p, from, to) > p <==> s.Weight(to) > s.Weight(from)
  {
    MovedByWeights(s, p, from, to);
    Scaled(s.m as real, Moved(s, p, from, to), p);
    Scaled(s.m as real, p, Moved(s, p, from, to));
  }

  lemma Scaled(m: real, x: real, y: real)
    requires m > 0.0
    ensures m * x <= m * y <==> x <= y
    ensures m * x == m * y <==> x == y
  {
    if x < y {
      assert m * (y - x) > 0.0;
    } else if y < x {
      assert m * (x - y) > 0.0;
    }
  }

  /** An encode of e, told from the two digests of e alone: it accepts exactly when the register of the
      routing digest is below the cap and surpassed by the ranking one, and then leaves the register where
      the ranking digest says. No other register changes. */
  predicate Decided(s: Sampler, e: Key, before: seq<uint32>, after: seq<uint32>, accepted: int)
    requires s.m > 0 && |before| == s.m
  {
    var k, digest := s.hash(e, s.routeSeed) % s.m, s.hash(e, s.rankSeed);
    && |after| == |before|
    && (forall l :: 0 <= l < |before| && l != k ==> after[l] == before[l])
    && if before[k] < s.maxValue && Surpasses(digest, before[k])
       then accepted == 1 && 0 < after[k] <= s.maxValue && Surpasses(digest, after[k] - 1)
            && (after[k] < s.maxValue ==> !Surpasses(digest, after[k]))
       else accepted == 0 && after[k] == before[k]
  }

  lemma DigestsDecide(s: Sampler, e: Key, regs: seq<uint32>)
    requires s.Ok() && |regs| == s.m
    ensures var k := s.hash(e, s.routeSeed) % s.m;
            if s.Rank(e) > regs[s.Route(e)] then Decided(s, e, regs, regs[k := s.Rank(e)], 1)
            else Decided(s, e, regs, regs, 0)
  {
    RankAbove(s, e, regs[s.hash(e, s.routeSeed) % s.m]);
    RankBrackets(s, e);
  }

  /** What p has become: used if anything was ever offered, lowered if an acceptance ever lowered p, capped
      if a register ever reached the cap. Registers cleared in between do not matter. */
  ghost predicate Recorded(s: Sampler, p: real, used: bool, lowered: bool, capped: bool) {
    && (!used ==> p == 1.0 && !lowered && !capped)
    && (0.0 < s.base <= 1.0 ==> p <= 1.0 && (p == 1.0 <==> !lowered))
    && (0.0 < s.base < 1.0 ==> (used <==> lowered))
    && (s.base > 1.0 && !capped ==> p >= 1.0 && (p > 1.0 <==> used))
    && (s.maxValue > 33 ==> !capped)
  }

  /** The effect of raising a register on p and its record. */
  lemma RaiseKeepsRecord(s: Sampler, p: real, from: uint32, to: uint32, used: bool, lowered: bool, capped: bool)
    requires s.Ok() && from < to <= s.maxValue && to <= 33 && Recorded(s, p, used, lowered, capped)
    ensures Recorded(s, Moved(s, p, from, to), true, lowered || s.Weight(to) < s.Weight(from),
                     capped || to == s.maxValue)
  {
    MovedAsWeight(s, p, from, to);
    if s.base > 0.0 {
      WeightMoves(s, from, to);
    }
  }

  /** The effect of raising register k on the ledger, and what p is then worth to the element. */
  lemma RaiseKeepsBalance(s: Sampler, regs: seq<uint32>, p: real, k: nat, v: uint32)
    requires s.Ok() && |regs| == s.m && k < |regs| && regs[k] < v <= s.maxValue
    ensures Ledger(s, regs, p) ==> Ledger(s, regs[k := v], Moved(s, p, regs[k], v))
    ensures Ledger(s, regs, p) && s.base > 0.0 ==> 0.0 < p && (s.base <= 1.0 ==> p <= 1.0)
  {
    if Ledger(s, regs, p) {
      RaiseKeepsLedger(s, regs, p, k, v);
      if s.base > 0.0 {
        ProbabilityInUnit(s, regs, p, k);
      }
    }
  }

  /** The elements offered since construction or the last clearing and how many were accepted, those offered
      since construction, and whether since then an acceptance lowered p, a register reached the cap,
      registers were cleared. */
  datatype Log = Log(offered: seq<Key>, accepted: nat, everOffered: seq<Key>, lowered: bool, capped: bool,
                     cleared: bool)

  /** Every register is the largest rank offered to it, and without clearing p is right. */
  ghost predicate Sound(s: Sampler, regs: seq<uint32>, p: real, h: Log)
    requires s.Ok()
  {
    && (forall k :: 0 <= k < |regs| ==> regs[k] == MaxRank(s, h.offered, k))
    && h.accepted <= RegisterSum(regs)
    && (h.everOffered == [] ==> h.offered == []) && (!h.capped ==> BelowCap(s, regs))
    && Recorded(s, p, h.everOffered != [], h.lowered, h.capped)
    && (!h.cleared ==> Ledger(s, regs, p))
  }

  function TurnedDown(h: Log, e: Key): Log {
    h.(offered := h.offered + [e], everOffered := h.everOffered + [e])
  }

  lemma RejectionKeepsSound(s: Sampler, regs: seq<uint32>, p: real, h: Log, e: Key)
    requires s.Ok() && |regs| == s.m && Sound(s, regs, p, h) && s.Rank(e) <= regs[s.Route(e)]
    ensures Sound(s, regs, p, TurnedDown(h, e))
  {
    OfferAll(s, h.offered, e, regs);
    assert h.offered != [];
  }

  /** What is known after e raised its register from a value to v. */
  function Raised(s: Sampler, h: Log, e: Key, from: uint32, v: uint32): Log
    requires s.Ok()
  {
    Log(h.offered + [e], h.accepted + 1, h.everOffered + [e], h.lowered || s.Weight(v) < s.Weight(from),
        h.capped || v == s.maxValue, h.cleared)
  }

  lemma RaiseKeepsSound(s: Sampler, regs: seq<uint32>, p: real, h: Log, e: Key)
    requires s.Ok() && |regs| == s.m && Sound(s, regs, p, h) && s.Rank(e) > regs[s.Route(e)]
    ensures var k, v := s.Route(e), s.Rank(e);
            Sound(s, regs[k := v], Moved(s, p, regs[k], v), Raised(s, h, e, regs[k], v))
  {
    var k, v := s.Route(e), s.Rank(e);
    OfferAll(s, h.offered, e, regs);
    RegisterSumUpdate(regs, k, v);
    RaiseKeepsRecord(s, p, regs[k], v, h.everOffered != [], h.lowered, h.capped);
    RaiseKeepsBalance(s, regs, p, k, v);
  }

  lemma FullWhileZero(s: Sampler, regs: seq<uint32>, p: real)
    requires s.Ok() && |regs| == s.m && Ledger(s, regs, p)
    requires 0.0 < s.base < 1.0 || (s.base > 1.0 && BelowCap(s, regs))
    ensures p == 1.0 <==> forall k :: 0 <= k < |regs| ==> regs[k] == 0
  {
    MeanAgainstOne(s.m as real, p, WeightSum(s, regs));
    if s.base < 1.0 {
      FullWeight(s, regs);
    } else {
      WeightSumBounds(s, regs);
    }
  }

  class GeneralHLL {
    const s: Sampler
    const hll: array<uint32>
    var p: real
    ghost var log: Log

    ghost predicate Valid()
      reads this, hll
    {
      s.Ok() && hll.Length == s.m && Sound(s, hll[..], p, log)
    }

    ghost predicate Balanced()
      requires s.Ok()
      reads this`p, hll
    {
      Ledger(s, hll[..], p)
    }

    constructor (s: Sampler)
      requires s.Ok()
      ensures Valid() && Balanced() && fresh(hll)
      ensures this.s == s && p == 1.0 && log == Log([], 0, [], false, false, false)
    {
      this.s := s;
      hll := new uint32[s.m](_ => 0);
      p := 1.0;
      log := Log([], 0, [], false, false, false);
      new;
      WeightSumOfZeros(s, hll[..]);
    }

    /** encode: -1 when the register already stands at or above the element's rank; otherwise the
        register is raised, p is moved by the difference of the weights and its old value returned. */
    method Encode(e: Key) returns (r: real)
      requires Valid()
      modifies this`p, this`log, hll
      ensures Valid()
      ensures s.Rank(e) <= old(hll[s.Route(e)]) ==>
                r == -1.0 && p == old(p) && hll[..] == old(hll[..]) && log == TurnedDown(old(log), e)
      ensures s.Rank(e) > old(hll[s.Route(e)]) ==>
                && r == old(p) && p == Moved(s, r, old(hll[s.Route(e)]), s.Rank(e))
                && hll[..] == old(hll[..])[s.Route(e) := s.Rank(e)]
                && log == Raised(s, old(log), e, old(hll[s.Route(e)]), s.Rank(e))
      ensures old(Balanced()) ==> Balanced()
      ensures s.base > 0.0 && old(Balanced()) && s.Rank(e) > old(hll[s.Route(e)]) ==>
                0.0 < r && (s.base <= 1.0 ==> r <= 1.0)
      ensures Decided(s, e, old(hll[..]), hll[..], log.accepted - old(log.accepted))
    {
      DigestsDecide(s, e, hll[..]);
      var v := s.Rank(e);
      var k := s.Route(e);
      ghost var regs := hll[..];
      var current := hll[k];
      if v <= current {
        RejectionKeepsSound(s, regs, p, log, e);
        log := TurnedDown(log, e);
        return -1.0;
      }
      RaiseKeepsBalance(s, regs, p, k, v);
      r := p;
      Raise(e, k, v, current);
    }

    /** The part of encode for an element that raises its register. */
    method Raise(e: Key, k: nat, v: uint32, current: uint32)
      requires Valid() && k == s.Route(e) && v == s.Rank(e) && hll[k] == current < v
      modifies this`p, this`log, hll
      ensures Valid() && p == Moved(s, old(p), current, v)
      ensures hll[..] == old(hll[..])[k := v] && log == Raised(s, old(log), e, current, v)
    {
      RaiseKeepsSound(s, hll[..], p, log, e);
      log := Raised(s, log, e, current, v);
      hll[k] := v;
      p := Moved(s, p, current, v);
    }

    /** Each acceptance raises the register sum, so there are at most m * maxValue of them. */
    lemma AcceptancesAreBounded()
      requires Valid()
      ensures log.accepted <= s.m * s.maxValue
    {
      forall k | 0 <= k < hll.Length ensures hll[k] <= s.maxValue {
        MaxRankIsMax(s, log.offered, k);
      }
      RegisterSumBound(hll[..], s.maxValue);
    }

    /** The part of SuperSpread.Reset that concerns one sampler: the registers are cleared, p is not. The
        ledger is right afterwards exactly when p stands at 1. For a base up to 1 that is when p was never
        lowered; for a base below 1, or above 1 with no register ever at the cap, when no element was ever
        offered, before or after earlier clearings. */
    method ClearRegisters()
      requires Valid()
      modifies this`log, hll
      ensures Valid() && log == old(log).(offered := [], accepted := 0, cleared := true)
      ensures forall k :: 0 <= k < hll.Length ==> hll[k] == 0
      ensures Balanced() <==> p == 1.0
      ensures 0.0 < s.base <= 1.0 ==> (Balanced() <==> !log.lowered)
      ensures OnlyOnceFull() ==> (Balanced() <==> log.everOffered == [])
    {
      var k := 0;
      while k < hll.Length
        invariant 0 <= k <= hll.Length && log == old(log)
        invariant forall l :: 0 <= l < k ==> hll[l] == 0
      {
        hll[k] := 0;
        k := k + 1;
      }
      log := log.(offered := [], accepted := 0, cleared := true);
      WeightSumOfZeros(s, hll[..]);
      Scaled(s.m as real, p, 1.0);
    }

    /** Once p has left 1 it does not come back. A cap above 33 is never reached. */
    ghost predicate OnlyOnceFull()
      reads this`log
    {
      0.0 < s.base < 1.0 || (s.base > 1.0 && !log.capped)
    }

    /** Then p stands at 1 only while no element has ever been offered; while the ledger holds, that is
        while all registers are 0. */
    lemma ProbabilityIsFullOnlyWhenUnused()
      requires Valid() && OnlyOnceFull()
      ensures p == 1.0 <==> log.everOffered == []
      ensures Balanced() ==> (p == 1.0 <==> forall k :: 0 <= k < hll.Length ==> hll[k] == 0)
    {
      if Ledger(s, hll[..], p) {
        FullWhileZero(s, hll[..], p);
      }
    }
  }

  /** With base 2 the second element that is accepted reads a p above 1 if the first had a rank below the
      cap. */
  method BaseTwoExceedsOne(s: Sampler, e: Key, f: Key) returns (r: real)
    requires s.Ok() && s.base == 2.0 && s.Rank(e) < s.maxValue
    requires s.Route(f) == s.Route(e) ==> s.Rank(f) > s.Rank(e)
    ensures r == 1.0 + (Pow(2.0, s.Rank(e)) - 1.0) / s.m as real && r > 1.0
  {
    var g := new GeneralHLL(s);
    var first := g.Encode(e);
    assert first == 1.0;
    r := g.Encode(f);
    FirstMove(s, s.Rank(e));
  }

  lemma {:induction false} FirstMove(s: Sampler, r: uint32)
    requires s.Ok() && s.base == 2.0 && 0 < r < s.maxValue
    ensures Moved(s, 1.0, 0, r) == 1.0 + (Pow(2.0, r) - 1.0) / s.m as real && Moved(s, 1.0, 0, r) > 1.0
  {
    PowAboveOne(2.0, r);
    Quotients(s.m as real, Pow(2.0, r));
  }

  lemma Quotients(m: real, x: real)
    requires m > 0.0 && x > 1.0
    ensures 1.0 - 1.0 / m + x / m == 1.0 + (x - 1.0) / m && (x - 1.0) / m > 0.0
  {
    MeanStep(m, 1.0, 1.0, x);
    MeanStep(m, 1.0, 0.0, x - 1.0);
    Scaled(m, 1.0 - 1.0 / m + x / m, 1.0 + (x - 1.0) / m);
    assert m * ((x - 1.0) / m) == x - 1.0;
    Scaled(m, (x - 1.0) / m, 0.0);
  }

  // The meaning of p for base 1/2.

  function Below(n: nat): (r: set<int>)
    ensures forall h :: h in r <==> 0 <= h < n
    ensures |r| == n
  {
    if n == 0 then {} else Below(n - 1) + {n - 1}
  }

  /** Digest h would raise a register standing at r. */
  ghost predicate Raises(s: Sampler, h: int, r: uint32)
    requires s.Ok()
  {
    0 <= h < TWO_32 && Min(LeadingZeros(h) + 1, s.maxValue) > r
  }

  ghost function Raising(s: Sampler, r: uint32): set<int>
    requires s.Ok()
  {
    set h | 0 <= h < TWO_32 && Raises(s, h, r)
  }

  /** The (register, digest) pairs that would be accepted. */
  ghost function Accepting(s: Sampler, regs: seq<uint32>): set<(int, int)>
    requires s.Ok()
  {
    set k, h | 0 <= k < |regs| && 0 <= h < TWO_32 && Raises(s, h, regs[k]) :: (k, h)
  }

  /** The pairs that count for p are the pairs of register and digest that encode accepts. */
  lemma AcceptedIsAccepting(s: Sampler, regs: seq<uint32>, e: Key)
    requires s.Ok() && |regs| == s.m
    ensures (s.hash(e, s.routeSeed) % s.m, s.hash(e, s.rankSeed)) in Accepting(s, regs) <==>
              var r := regs[s.hash(e, s.routeSeed) % s.m];
              r < s.maxValue && Surpasses(s.hash(e, s.rankSeed), r)
  {
    var k, digest := s.hash(e, s.routeSeed) % s.m, s.hash(e, s.rankSeed);
    if regs[k] <= 32 {
      LeadingZerosAtLeast(digest, regs[k]);
    }
    LeadingZerosBound(digest);
    assert (k, digest) in Accepting(s, regs) <==> Raises(s, digest, regs[k]);
  }

  lemma {:induction false} HalfPower(r: nat)
    requires r <= 32
    ensures TWO_32 as real * Pow(0.5, r) == Pow2(32 - r) as real
  {
    if r == 0 {
      Pow2Values();
    } else {
      HalfPower(r - 1);
    }
  }

  lemma RaisingSize(s: Sampler, r: uint32)
    requires s.Ok() && s.base == 0.5 && s.maxValue <= 31
    ensures |Raising(s, r)| as real == TWO_32 as real * s.Weight(r)
  {
    if r < s.maxValue {
      var n := Pow2(32 - r);
      Pow2Mono(32 - r, 32);
      Pow2Values();
      forall h | 0 <= h < TWO_32 ensures Raises(s, h, r) <==> h < n {
        LeadingZerosAtLeast(h, r);
      }
      assert Raising(s, r) == Below(n);
      HalfPower(r);
    } else {
      assert Raising(s, r) == {};
    }
  }

  ghost function PairUp<T>(k: int, hs: set<T>): set<(int, T)> {
    set h | h in hs :: (k, h)
  }

  lemma {:induction false} PairUpSize<T>(k: int, hs: set<T>)
    ensures |PairUp(k, hs)| == |hs|
    decreases |hs|
  {
    if hs == {} {
      assert PairUp(k, hs) == {};
    } else {
      var x :| x in hs;
      PairUpSize(k, hs - {x});
      assert PairUp(k, hs) == PairUp(k, hs - {x}) + {(k, x)};
    }
  }

  lemma {:induction false} AcceptingSize(s: Sampler, regs: seq<uint32>)
    requires s.Ok() && s.base == 0.5 && s.maxValue <= 31
    ensures |Accepting(s, regs)| as real == TWO_32 as real * WeightSum(s, regs)
  {
    if regs == [] {
      assert Accepting(s, regs) == {};
    } else {
      var n := |regs| - 1;
      AcceptingSize(s, regs[..n]);
      RaisingSize(s, regs[n]);
      PairUpSize(n, Raising(s, regs[n]));
      LastRegister(s, regs);
    }
  }

  lemma LastRegister(s: Sampler, regs: seq<uint32>)
    requires s.Ok() && regs != []
    ensures var n := |regs| - 1;
            |Accepting(s, regs)| == |Accepting(s, regs[..n])| + |PairUp(n, Raising(s, regs[n]))|
  {
    var n := |regs| - 1;
    var a, b := Accepting(s, regs[..n]), PairUp(n, Raising(s, regs[n]));
    forall k, h ensures (k, h) in Accepting(s, regs) <==> (k, h) in a || (k, h) in b {
      if 0 <= k < n {
        assert regs[..n][k] == regs[k];
      }
    }
    assert Accepting(s, regs) == a + b;
    assert a !! b;
  }

  /** For the default base 1/2 and at most 5 bits per register, m * 2^32 * p is the number of
      (register, digest) pairs that a fresh element could hit and be accepted. */
  lemma ProbabilityCountsAcceptingPairs(s: Sampler, regs: seq<uint32>, p: real)
    requires s.Ok() && s.base == 0.5 && s.maxValue <= 31
    requires |regs| == s.m && Ledger(s, regs, p)
    ensures TWO_32 as real * (s.m as real * p) == |Accepting(s, regs)| as real
  {
    AcceptingSize(s, regs);
  }
}
