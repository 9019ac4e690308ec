/** GeneralHLL.encode and atomicAddFloat64 (super_spread.go) under any interleaving of their atomic
    loads and compare-and-swaps, without Reset. Floats are exact reals, and a swap of pbits succeeds
    when the value is the one loaded, even if it changed in between. */
module HyperLogLogAtomics {
  import opened Words
  import opened HyperLogLog

  /** Where an encode call stands. seen is the value of p loaded by atomicAddFloat64. */
  datatype Phase =
    | LoadRegister
    | SwapRegister(current: uint32)
    | ReadProbability(current: uint32)
    | LoadForSub(current: uint32)
    | SwapForSub(current: uint32, seen: real)
    | LoadForAdd
    | SwapForAdd(seen: real)
    | Accepted
    | Rejected

  /** An encode of an element with the given rank and register, and what it will return. */
  datatype Call = Call(k: nat, v: uint32, phase: Phase, result: real)

  datatype State = State(regs: seq<uint32>, p: real, calls: seq<Call>)

  function Step(s: Sampler, st: State, i: nat): State
    requires s.Ok() && i < |st.calls| && st.calls[i].k < |st.regs|
  {
    var c := st.calls[i];
    var m := s.m as real;
    match c.phase
    case LoadRegister =>
      var current := st.regs[c.k];
      st.(calls := st.calls[i := c.(phase := if c.v <= current then Rejected else SwapRegister(current))])
    case SwapRegister(current) =>
      if st.regs[c.k] == current
      then st.(regs := st.regs[c.k := c.v], calls := st.calls[i := c.(phase := ReadProbability(current))])
      else st.(calls := st.calls[i := c.(phase := LoadRegister)])
    case ReadProbability(current) => st.(calls := st.calls[i := c.(phase := LoadForSub(current), result := st.p)])
    case LoadForSub(current) => st.(calls := st.calls[i := c.(phase := SwapForSub(current, st.p))])
    case SwapForSub(current, seen) =>
      if st.p == seen
      then st.(p := seen - Pow(s.base, current) / m,
               calls := st.calls[i := c.(phase := if c.v < s.maxValue then LoadForAdd else Accepted)])
      else st.(calls := st.calls[i := c.(phase := LoadForSub(current))])
    case LoadForAdd => st.(calls := st.calls[i := c.(phase := SwapForAdd(st.p))])
    case SwapForAdd(seen) =>
      if st.p == seen
      then st.(p := seen + Pow(s.base, c.v) / m, calls := st.calls[i := c.(phase := Accepted)])
      else st.(calls := st.calls[i := c.(phase := LoadForAdd)])
    case Accepted => st
    case Rejected => st
  }

  ghost predicate Shaped(s: Sampler, st: State) {
    s.Ok() && |st.regs| == s.m && forall i :: 0 <= i < |st.calls| ==> st.calls[i].k < |st.regs|
  }

  function Execute(s: Sampler, st: State, schedule: seq<nat>): State
    requires Shaped(s, st)
    requires forall k :: 0 <= k < |schedule| ==> schedule[k] < |st.calls|
    ensures Shaped(s, Execute(s, st, schedule)) && |Execute(s, st, schedule).calls| == |st.calls|
  {
    if schedule == [] then st
    else Step(s, Execute(s, st, schedule[..|schedule| - 1]), schedule[|schedule| - 1])
  }

  ghost predicate Initial(s: Sampler, st: State) {
    && Shaped(s, st) && st.p == 1.0
    && (forall k :: 0 <= k < |st.regs| ==> st.regs[k] == 0)
    && forall i :: 0 <= i < |st.calls| ==>
         st.calls[i].phase == LoadRegister && st.calls[i].v <= s.maxValue && st.calls[i].result == -1.0
  }

  // What a call past its register swap still owes to m * p.

  function Owed(s: Sampler, c: Call): real
    requires s.Ok()
  {
    match c.phase
    case ReadProbability(current) => s.Weight(c.v) - s.Weight(current)
    case LoadForSub(current) => s.Weight(c.v) - s.Weight(current)
    case SwapForSub(current, _) => s.Weight(c.v) - s.Weight(current)
    case LoadForAdd => s.Weight(c.v)
    case SwapForAdd(_) => s.Weight(c.v)
    case _ => 0.0
  }

  function TotalOwed(s: Sampler, calls: seq<Call>): real
    requires s.Ok()
  {
    if calls == [] then 0.0 else TotalOwed(s, calls[..|calls| - 1]) + Owed(s, calls[|calls| - 1])
  }

  /** 1 once the call has won its register. */
  function Wins(c: Call): nat {
    if c.phase.LoadRegister? || c.phase.SwapRegister? || c.phase.Rejected? then 0 else 1
  }

  function TotalWins(calls: seq<Call>): nat {
    if calls == [] then 0 else TotalWins(calls[..|calls| - 1]) + Wins(calls[|calls| - 1])
  }

  lemma {:induction false} TotalsUpdate(s: Sampler, calls: seq<Call>, i: nat, c: Call)
    requires s.Ok() && i < |calls|
    ensures TotalOwed(s, calls[i := c]) == TotalOwed(s, calls) - Owed(s, calls[i]) + Owed(s, c)
    ensures TotalWins(calls[i := c]) == TotalWins(calls) - Wins(calls[i]) + Wins(c)
  {
    var n := |calls| - 1;
    if i == n {
      assert calls[i := c][..n] == calls[..n];
    } else {
      assert calls[i := c][..n] == calls[..n][i := c];
      TotalsUpdate(s, calls[..n], i, c);
    }
  }

  predicate CallOk(s: Sampler, c: Call) {
    && c.v <= s.maxValue
    && (c.phase.SwapRegister? ==> c.phase.current < c.v)
    && (c.phase.ReadProbability? ==> c.phase.current < c.v)
    && (c.phase.LoadForSub? ==> c.phase.current < c.v)
    && (c.phase.SwapForSub? ==> c.phase.current < c.v)
    && (c.phase.LoadForAdd? || c.phase.SwapForAdd? ==> c.v < s.maxValue)
    && (c.phase.LoadRegister? || c.phase.SwapRegister? || c.phase.ReadProbability? || c.phase.Rejected? ==>
          c.result == -1.0)
  }

  ghost predicate Inv(s: Sampler, st: State)
    requires Shaped(s, st)
  {
    && (forall i :: 0 <= i < |st.calls| ==> CallOk(s, st.calls[i]))
    && (forall k :: 0 <= k < |st.regs| ==> st.regs[k] <= s.maxValue)
    && LedgerHolds(s, st) && WinsFit(st)
  }

  /** m * p plus everything still owed is the sum of the register weights. */
  ghost predicate LedgerHolds(s: Sampler, st: State)
    requires s.Ok()
  {
    Scaled(s, st.p) + TotalOwed(s, st.calls) == WeightSum(s, st.regs)
  }

  /** Each won register swap raised the register sum. */
  ghost predicate WinsFit(st: State) {
    TotalWins(st.calls) <= RegisterSum(st.regs)
  }

  function Scaled(s: Sampler, p: real): real {
    s.m as real * p
  }

  lemma ScaledStep(s: Sampler, p: real, a: real)
    requires s.Ok()
    ensures Scaled(s, p - a / s.m as real) == Scaled(s, p) - a
    ensures Scaled(s, p + a / s.m as real) == Scaled(s, p) + a
  {
    MeanStep(s.m as real, p, a, a);
  }

  lemma StepKeepsShape(s: Sampler, st: State, i: nat)
    requires Shaped(s, st) && Inv(s, st) && i < |st.calls|
    ensures var r := Step(s, st, i);
            && Shaped(s, r)
            && (forall j :: 0 <= j < |r.calls| ==> CallOk(s, r.calls[j]))
            && (forall k :: 0 <= k < |r.regs| ==> r.regs[k] <= s.maxValue)
  {
    assert CallOk(s, st.calls[i]);
  }

  lemma RegisterSwapKeepsLedger(s: Sampler, st: State, i: nat)
    requires Shaped(s, st) && Inv(s, st) && i < |st.calls|
    requires st.calls[i].phase.SwapRegister? && st.regs[st.calls[i].k] == st.calls[i].phase.current
    ensures LedgerHolds(s, Step(s, st, i)) && WinsFit(Step(s, st, i))
  {
    var c := st.calls[i];
    assert CallOk(s, c);
    TotalsUpdate(s, st.calls, i, c.(phase := ReadProbability(c.phase.current)));
    WeightSumUpdate(s, st.regs, c.k, c.v);
    RegisterSumUpdate(st.regs, c.k, c.v);
  }

  lemma SubKeepsLedger(s: Sampler, st: State, i: nat)
    requires Shaped(s, st) && Inv(s, st) && i < |st.calls|
    requires st.calls[i].phase.SwapForSub? && st.p == st.calls[i].phase.seen
    ensures LedgerHolds(s, Step(s, st, i)) && WinsFit(Step(s, st, i))
  {
    var c := st.calls[i];
    assert CallOk(s, c);
    TotalsUpdate(s, st.calls, i, Step(s, st, i).calls[i]);
    ScaledStep(s, st.p, Pow(s.base, c.phase.current));
  }

  lemma AddKeepsLedger(s: Sampler, st: State, i: nat)
    requires Shaped(s, st) && Inv(s, st) && i < |st.calls|
    requires st.calls[i].phase.SwapForAdd? && st.p == st.calls[i].phase.seen
    ensures LedgerHolds(s, Step(s, st, i)) && WinsFit(Step(s, st, i))
  {
    var c := st.calls[i];
    assert CallOk(s, c);
    TotalsUpdate(s, st.calls, i, Step(s, st, i).calls[i]);
    ScaledStep(s, st.p, Pow(s.base, c.v));
  }

  /** A step that writes neither a register nor p leaves every debt as it is. */
  lemma LocalStepKeepsLedger(s: Sampler, st: State, i: nat)
    requires Shaped(s, st) && Inv(s, st) && i < |st.calls|
    requires Step(s, st, i).regs == st.regs && Step(s, st, i).p == st.p
    requires Owed(s, Step(s, st, i).calls[i]) == Owed(s, st.calls[i])
    requires Wins(Step(s, st, i).calls[i]) == Wins(st.calls[i])
    ensures LedgerHolds(s, Step(s, st, i)) && WinsFit(Step(s, st, i))
  {
    var r := Step(s, st, i);
    assert r.calls == st.calls[i := r.calls[i]];
    TotalsUpdate(s, st.calls, i, r.calls[i]);
  }

  lemma StepKeepsInv(s: Sampler, st: State, i: nat)
    requires Shaped(s, st) && Inv(s, st) && i < |st.calls|
    ensures Shaped(s, Step(s, st, i)) && Inv(s, Step(s, st, i))
  {
    var c := st.calls[i];
    StepKeepsShape(s, st, i);
    if c.phase.SwapRegister? && st.regs[c.k] == c.phase.current {
      RegisterSwapKeepsLedger(s, st, i);
    } else if c.phase.SwapForSub? && st.p == c.phase.seen {
      SubKeepsLedger(s, st, i);
    } else if c.phase.SwapForAdd? && st.p == c.phase.seen {
      AddKeepsLedger(s, st, i);
    } else {
      LocalStepKeepsLedger(s, st, i);
    }
  }

  lemma {:induction false} InitialTotals(s: Sampler, calls: seq<Call>)
    requires s.Ok() && forall i :: 0 <= i < |calls| ==> calls[i].phase == LoadRegister
    ensures TotalOwed(s, calls) == 0.0 && TotalWins(calls) == 0
  {
    if calls != [] {
      InitialTotals(s, calls[..|calls| - 1]);
    }
  }

  lemma {:induction false} FinalTotals(s: Sampler, calls: seq<Call>)
    requires s.Ok() && forall i :: 0 <= i < |calls| ==> calls[i].phase == Accepted || calls[i].phase == Rejected
    ensures TotalOwed(s, calls) == 0.0
  {
    if calls != [] {
      FinalTotals(s, calls[..|calls| - 1]);
    }
  }

  /** The ledger of every schedule: m * p plus what is still owed is the sum of the register weights,
      and there are never more accepted calls than the registers can be raised. */
  lemma {:induction false} LedgerUnderEverySchedule(s: Sampler, st: State, schedule: seq<nat>)
    requires Initial(s, st)
    requires forall k :: 0 <= k < |schedule| ==> schedule[k] < |st.calls|
    ensures Inv(s, Execute(s, st, schedule))
    ensures TotalWins(Execute(s, st, schedule).calls) <= s.m * s.maxValue
  {
    if schedule == [] {
      InitialTotals(s, st.calls);
      WeightSumOfZeros(s, st.regs);
    } else {
      LedgerUnderEverySchedule(s, st, schedule[..|schedule| - 1]);
      StepKeepsInv(s, Execute(s, st, schedule[..|schedule| - 1]), schedule[|schedule| - 1]);
    }
    RegisterSumBound(Execute(s, st, schedule).regs, s.maxValue);
  }

  ghost predicate Quiescent(st: State) {
    forall i :: 0 <= i < |st.calls| ==> st.calls[i].phase == Accepted || st.calls[i].phase == Rejected
  }

  /** Once no call is in progress, p is exactly the mean of the register weights: the adjustments of
      successive swaps on one register telescope. */
  lemma {:induction false} QuiescentProbability(s: Sampler, st: State, schedule: seq<nat>)
    requires Initial(s, st)
    requires forall k :: 0 <= k < |schedule| ==> schedule[k] < |st.calls|
    ensures var r := Execute(s, st, schedule);
            Quiescent(r) ==> Ledger(s, r.regs, r.p)
  {
    LedgerUnderEverySchedule(s, st, schedule);
    var r := Execute(s, st, schedule);
    if Quiescent(r) {
      FinalTotals(s, r.calls);
      assert Scaled(s, r.p) == WeightSum(s, r.regs);
    }
  }

  // The registers.

  predicate PastRegister(c: Call) {
    !c.phase.LoadRegister? && !c.phase.SwapRegister?
  }

  /** Some call won register k with rank v. */
  ghost predicate Attained(calls: seq<Call>, k: nat, v: uint32) {
    exists i :: 0 <= i < |calls| && calls[i].k == k && calls[i].v == v && Wins(calls[i]) == 1
  }

  /** A call past its register has left it at or above its rank, and a raised register was won by some call. */
  ghost predicate Covered(st: State) {
    && (forall i :: 0 <= i < |st.calls| && PastRegister(st.calls[i]) ==>
          st.calls[i].k < |st.regs| && st.calls[i].v <= st.regs[st.calls[i].k])
    && (forall k :: 0 <= k < |st.regs| && st.regs[k] > 0 ==> Attained(st.calls, k, st.regs[k]))
  }

  lemma StepCovers(s: Sampler, st: State, i: nat)
    requires Shaped(s, st) && i < |st.calls| && CallOk(s, st.calls[i]) && Covered(st)
    ensures Covered(Step(s, st, i))
  {
    var r := Step(s, st, i);
    assert r.calls == st.calls[i := r.calls[i]] && r.calls[i].k == st.calls[i].k && r.calls[i].v == st.calls[i].v;
    assert Wins(r.calls[i]) >= Wins(st.calls[i]);
    forall k | 0 <= k < |r.regs| && r.regs[k] > 0 ensures Attained(r.calls, k, r.regs[k]) {
      if r.regs[k] == st.regs[k] {
        var j :| 0 <= j < |st.calls| && st.calls[j].k == k && st.calls[j].v == st.regs[k] && Wins(st.calls[j]) == 1;
        assert r.calls[j].k == k && r.calls[j].v == r.regs[k] && Wins(r.calls[j]) == 1;
      } else {
        assert r.calls[i].k == k && r.calls[i].v == r.regs[k] && Wins(r.calls[i]) == 1;
      }
    }
  }

  lemma {:induction false} EveryScheduleCovers(s: Sampler, st: State, schedule: seq<nat>)
    requires Initial(s, st) && forall k :: 0 <= k < |schedule| ==> schedule[k] < |st.calls|
    ensures Covered(Execute(s, st, schedule))
  {
    if schedule != [] {
      var before := schedule[..|schedule| - 1];
      EveryScheduleCovers(s, st, before);
      LedgerUnderEverySchedule(s, st, before);
      StepCovers(s, Execute(s, st, before), schedule[|schedule| - 1]);
    }
  }

  /** Under every schedule no element is lost: once all calls have returned, no register is below the rank of a
      call, and each is 0 or the rank of a call that was accepted. */
  lemma {:induction false} RegistersAreMaxima(s: Sampler, st: State, schedule: seq<nat>)
    requires Initial(s, st) && forall k :: 0 <= k < |schedule| ==> schedule[k] < |st.calls|
    ensures var r := Execute(s, st, schedule);
            Quiescent(r) ==>
              && (forall i :: 0 <= i < |r.calls| ==> r.calls[i].v <= r.regs[r.calls[i].k])
              && (forall k :: 0 <= k < |r.regs| && r.regs[k] > 0 ==>
                    exists i :: 0 <= i < |r.calls| && r.calls[i].k == k && r.calls[i].v == r.regs[k]
                                && r.calls[i].phase == Accepted)
  {
    EveryScheduleCovers(s, st, schedule);
    var r := Execute(s, st, schedule);
    if Quiescent(r) {
      forall i | 0 <= i < |r.calls| ensures r.calls[i].v <= r.regs[r.calls[i].k] {
        assert PastRegister(r.calls[i]);
      }
      forall k | 0 <= k < |r.regs| && r.regs[k] > 0
        ensures exists i :: 0 <= i < |r.calls| && r.calls[i].k == k && r.calls[i].v == r.regs[k]
                            && r.calls[i].phase == Accepted
      {
        assert Attained(r.calls, k, r.regs[k]);
      }
    }
  }

  // The value that an accepted call returns.

  /** Between its subtraction and its addition. */
  predicate HalfDone(c: Call) {
    c.phase.LoadForAdd? || c.phase.SwapForAdd?
  }

  function Due(s: Sampler, c: Call): real
    requires s.Ok()
  {
    if HalfDone(c) then s.Weight(c.v) else 0.0
  }

  function TotalDue(s: Sampler, calls: seq<Call>): real
    requires s.Ok()
  {
    if calls == [] then 0.0 else TotalDue(s, calls[..|calls| - 1]) + Due(s, calls[|calls| - 1])
  }

  lemma {:induction false} DueUpdate(s: Sampler, calls: seq<Call>, i: nat, c: Call)
    requires s.Ok() && i < |calls|
    ensures TotalDue(s, calls[i := c]) == TotalDue(s, calls) - Due(s, calls[i]) + Due(s, c)
  {
    var n := |calls| - 1;
    if i == n {
      assert calls[i := c][..n] == calls[..n];
    } else {
      assert calls[i := c][..n] == calls[..n][i := c];
      DueUpdate(s, calls[..n], i, c);
    }
  }

  lemma {:induction false} DueIsPositive(s: Sampler, calls: seq<Call>)
    requires s.Ok() && s.base > 0.0
    ensures TotalDue(s, calls) >= 0.0
    ensures (forall i :: 0 <= i < |calls| ==> !HalfDone(calls[i])) ==> TotalDue(s, calls) == 0.0
  {
    if calls != [] {
      DueIsPositive(s, calls[..|calls| - 1]);
      WeightBounds(s, calls[|calls| - 1].v);
    }
  }

  /** p stays at most 1 even when everything due has been added. */
  ghost predicate DueFits(s: Sampler, st: State)
    requires s.Ok()
  {
    Scaled(s, st.p) + TotalDue(s, st.calls) <= s.m as real
  }

  lemma DueBoundsP(s: Sampler, st: State)
    requires s.Ok() && s.base > 0.0 && DueFits(s, st)
    ensures st.p <= 1.0
  {
    DueIsPositive(s, st.calls);
    MeanAgainstOne(s.m as real, st.p, Scaled(s, st.p));
  }

  lemma SubFits(s: Sampler, st: State, i: nat)
    requires Shaped(s, st) && Inv(s, st) && 0.0 < s.base <= 1.0 && i < |st.calls| && DueFits(s, st)
    requires st.calls[i].phase.SwapForSub? && st.p == st.calls[i].phase.seen
    ensures DueFits(s, Step(s, st, i))
  {
    var c := st.calls[i];
    assert CallOk(s, c);
    DueUpdate(s, st.calls, i, Step(s, st, i).calls[i]);
    ScaledStep(s, st.p, Pow(s.base, c.phase.current));
    WeightMoves(s, c.phase.current, c.v);
  }

  lemma AddFits(s: Sampler, st: State, i: nat)
    requires Shaped(s, st) && Inv(s, st) && i < |st.calls| && DueFits(s, st)
    requires st.calls[i].phase.SwapForAdd? && st.p == st.calls[i].phase.seen
    ensures DueFits(s, Step(s, st, i))
  {
    var c := st.calls[i];
    assert CallOk(s, c);
    DueUpdate(s, st.calls, i, Step(s, st, i).calls[i]);
    ScaledStep(s, st.p, Pow(s.base, c.v));
  }

  lemma LocalStepFits(s: Sampler, st: State, i: nat)
    requires Shaped(s, st) && i < |st.calls| && DueFits(s, st)
    requires Step(s, st, i).p == st.p && Due(s, Step(s, st, i).calls[i]) == Due(s, st.calls[i])
    ensures DueFits(s, Step(s, st, i))
  {
    var r := Step(s, st, i);
    assert r.calls == st.calls[i := r.calls[i]];
    DueUpdate(s, st.calls, i, r.calls[i]);
  }

  lemma StepFits(s: Sampler, st: State, i: nat)
    requires Shaped(s, st) && Inv(s, st) && 0.0 < s.base <= 1.0 && i < |st.calls| && DueFits(s, st)
    ensures DueFits(s, Step(s, st, i))
  {
    var c := st.calls[i];
    if c.phase.SwapForSub? && st.p == c.phase.seen {
      SubFits(s, st, i);
    } else if c.phase.SwapForAdd? && st.p == c.phase.seen {
      AddFits(s, st, i);
    } else {
      LocalStepFits(s, st, i);
    }
  }

  lemma {:induction false} NothingDue(s: Sampler, calls: seq<Call>)
    requires s.Ok() && forall i :: 0 <= i < |calls| ==> calls[i].phase == LoadRegister
    ensures TotalDue(s, calls) == 0.0
  {
    if calls != [] {
      NothingDue(s, calls[..|calls| - 1]);
    }
  }

  lemma {:induction false} DueAlwaysFits(s: Sampler, st: State, schedule: seq<nat>)
    requires Initial(s, st) && 0.0 < s.base <= 1.0
    requires forall k :: 0 <= k < |schedule| ==> schedule[k] < |st.calls|
    ensures DueFits(s, Execute(s, st, schedule))
  {
    if schedule == [] {
      NothingDue(s, st.calls);
    } else {
      var before := schedule[..|schedule| - 1];
      DueAlwaysFits(s, st, before);
      LedgerUnderEverySchedule(s, st, before);
      StepFits(s, Execute(s, st, before), schedule[|schedule| - 1]);
    }
  }

  lemma ResultStep(s: Sampler, st: State, i: nat, j: nat)
    requires Shaped(s, st) && i < |st.calls| && j < |st.calls|
    ensures var r := Step(s, st, i).calls[j].result; r == st.calls[j].result || r == st.p
  {
  }

  /** For a base up to 1, p and every value returned stay at most 1 under every schedule. */
  lemma {:induction false} NeverAboveOne(s: Sampler, st: State, schedule: seq<nat>)
    requires Initial(s, st) && 0.0 < s.base <= 1.0
    requires forall k :: 0 <= k < |schedule| ==> schedule[k] < |st.calls|
    ensures var r := Execute(s, st, schedule);
            r.p <= 1.0 && forall i :: 0 <= i < |r.calls| ==> r.calls[i].result <= 1.0
  {
    DueAlwaysFits(s, st, schedule);
    DueBoundsP(s, Execute(s, st, schedule));
    if schedule != [] {
      var before := schedule[..|schedule| - 1];
      var was := Execute(s, st, before);
      NeverAboveOne(s, st, before);
      forall i | 0 <= i < |was.calls| ensures Execute(s, st, schedule).calls[i].result <= 1.0 {
        ResultStep(s, was, schedule[|schedule| - 1], i);
      }
    }
  }

  /** What is owed beyond what is due only lowers p; a call about to read lowers it strictly. */
  lemma {:induction false} OwedBelowDue(s: Sampler, calls: seq<Call>)
    requires s.Ok() && 0.0 < s.base < 1.0 && forall i :: 0 <= i < |calls| ==> CallOk(s, calls[i])
    ensures TotalOwed(s, calls) <= TotalDue(s, calls)
    ensures (exists i :: 0 <= i < |calls| && calls[i].phase.ReadProbability?) ==>
              TotalOwed(s, calls) < TotalDue(s, calls)
  {
    if calls != [] {
      var n := |calls| - 1;
      OwedBelowDue(s, calls[..n]);
      assert CallOk(s, calls[n]);
      if calls[n].phase.ReadProbability? || calls[n].phase.LoadForSub? || calls[n].phase.SwapForSub? {
        WeightMoves(s, calls[n].phase.current, calls[n].v);
      }
      if (exists i :: 0 <= i < |calls| && calls[i].phase.ReadProbability?) && !calls[n].phase.ReadProbability? {
        var i :| 0 <= i < |calls| && calls[i].phase.ReadProbability?;
        assert calls[..n][i].phase.ReadProbability?;
      }
    }
  }

  /** For a base below 1, a call reads a p in (0, 1] whenever no other call stands between its subtraction
      and its addition; those that do can take from p at most what they still have to add. */
  lemma {:induction false} ReadsProbability(s: Sampler, st: State, schedule: seq<nat>, i: nat)
    requires Initial(s, st) && 0.0 < s.base < 1.0 && i < |st.calls|
    requires forall k :: 0 <= k < |schedule| ==> schedule[k] < |st.calls|
    requires Execute(s, st, schedule).calls[i].phase.ReadProbability?
    ensures var r := Execute(s, st, schedule);
            && r.p <= 1.0 && Scaled(s, r.p) > -TotalDue(s, r.calls)
            && ((forall j :: 0 <= j < |r.calls| ==> !HalfDone(r.calls[j])) ==> 0.0 < r.p)
            && Step(s, r, i).calls[i].result == r.p
  {
    NeverAboveOne(s, st, schedule);
    LedgerUnderEverySchedule(s, st, schedule);
    ReadAboveDue(s, Execute(s, st, schedule), i);
  }

  lemma {:induction false} ReadAboveDue(s: Sampler, st: State, i: nat)
    requires Shaped(s, st) && Inv(s, st) && 0.0 < s.base < 1.0
    requires i < |st.calls| && st.calls[i].phase.ReadProbability?
    ensures Scaled(s, st.p) > -TotalDue(s, st.calls)
    ensures (forall j :: 0 <= j < |st.calls| ==> !HalfDone(st.calls[j])) ==> 0.0 < st.p
  {
    WeightSumBounds(s, st.regs);
    OwedBelowDue(s, st.calls);
    DueIsPositive(s, st.calls);
    MeanAgainstOne(s.m as real, st.p, Scaled(s, st.p));
  }

  lemma {:induction false} StepOn(s: Sampler, st: State, done: seq<nat>, i: nat, was: State)
    requires Shaped(s, st) && i < |st.calls| && forall k :: 0 <= k < |done| ==> done[k] < |st.calls|
    requires Execute(s, st, done) == was
    ensures Shaped(s, was) && |was.calls| == |st.calls|
    ensures Execute(s, st, done + [i]) == Step(s, was, i)
    ensures Shaped(s, Step(s, was, i)) && |Step(s, was, i).calls| == |st.calls|
  {
    assert (done + [i])[..|done|] == done;
  }

  /** Two more steps. */
  lemma {:induction false} RunOn(s: Sampler, st: State, done: seq<nat>, i: nat, j: nat, was: State)
    requires Shaped(s, st) && i < |st.calls| && j < |st.calls|
    requires forall k :: 0 <= k < |done| ==> done[k] < |st.calls|
    requires Execute(s, st, done) == was
    ensures Shaped(s, was) && |was.calls| == |st.calls| && |Step(s, was, i).calls| == |st.calls|
    ensures Shaped(s, Step(s, was, i)) && Execute(s, st, done + [i, j]) == Step(s, Step(s, was, i), j)
  {
    StepOn(s, st, done, i, was);
    StepOn(s, st, done + [i], j, Step(s, was, i));
    assert done + [i, j] == done + [i] + [j];
  }

  ghost predicate AtHalf(s: Sampler, st: State, calls: seq<Call>) {
    && Shaped(s, st) && s.m == 1 && s.base == 0.5 && s.maxValue > 3 && |st.calls| == |calls| == 3
    && forall i :: 0 <= i < 3 ==> calls[i].k == 0 && calls[i].v == i + 1
  }

  /** One register, base 1/2, ranks 1, 2 and 3: the third call is accepted and returns a negative number,
      because it reads p while the other two stand between subtraction and addition. */
  lemma NegativeProbability(s: Sampler, st: State) returns (schedule: seq<nat>)
    requires Initial(s, st) && AtHalf(s, st, st.calls)
    ensures forall k :: 0 <= k < |schedule| ==> schedule[k] < |st.calls|
    ensures var c := Execute(s, st, schedule).calls[2];
            c.phase.SwapForSub? && c.result == -0.5
  {
    var c0, c1, c2 := st.calls[0], st.calls[1], st.calls[2];
    var a, b := c0.(phase := ReadProbability(0)), c1.(phase := ReadProbability(1));
    RunOn(s, st, [], 0, 0, State([0], 1.0, [c0, c1, c2]));
    var s1 := [] + [0, 0];
    assert Execute(s, st, s1) == State([1], 1.0, [a, c1, c2]);
    RunOn(s, st, s1, 1, 1, State([1], 1.0, [a, c1, c2]));
    var s2 := s1 + [1, 1];
    assert Execute(s, st, s2) == State([2], 1.0, [a, b, c2]);
    schedule := LastRegister(s, st, s2, a, b, c2);
  }

  lemma LastRegister(s: Sampler, st: State, done: seq<nat>, a: Call, b: Call, c: Call) returns (schedule: seq<nat>)
    requires AtHalf(s, st, [a, b, c]) && forall k :: 0 <= k < |done| ==> done[k] < |st.calls|
    requires Execute(s, st, done) == State([2], 1.0, [a, b, c])
    requires a.phase == ReadProbability(0) && b.phase == ReadProbability(1) && c.phase == LoadRegister
    ensures forall k :: 0 <= k < |schedule| ==> schedule[k] < |st.calls|
    ensures var c := Execute(s, st, schedule).calls[2];
            c.phase.SwapForSub? && c.result == -0.5
  {
    var d, a2 := c.(phase := ReadProbability(2)), a.(phase := SwapForSub(0, 1.0), result := 1.0);
    RunOn(s, st, done, 2, 2, State([2], 1.0, [a, b, c]));
    var s1 := done + [2, 2];
    assert Execute(s, st, s1) == State([3], 1.0, [a, b, d]);
    RunOn(s, st, s1, 0, 0, State([3], 1.0, [a, b, d]));
    var s2 := s1 + [0, 0];
    assert Execute(s, st, s2) == State([3], 1.0, [a2, b, d]);
    schedule := FirstSubtracts(s, st, s2, a2, b, d);
  }

  lemma FirstSubtracts(s: Sampler, st: State, done: seq<nat>, a: Call, b: Call, d: Call) returns (schedule: seq<nat>)
    requires AtHalf(s, st, [a, b, d]) && forall k :: 0 <= k < |done| ==> done[k] < |st.calls|
    requires Execute(s, st, done) == State([3], 1.0, [a, b, d])
    requires a.phase == SwapForSub(0, 1.0) && b.phase == ReadProbability(1) && d.phase == ReadProbability(2)
    ensures forall k :: 0 <= k < |schedule| ==> schedule[k] < |st.calls|
    ensures var c := Execute(s, st, schedule).calls[2];
            c.phase.SwapForSub? && c.result == -0.5
  {
    RunOn(s, st, done, 0, 1, State([3], 1.0, [a, b, d]));
    var a3, b2 := a.(phase := LoadForAdd), b.(phase := LoadForSub(1), result := 0.0);
    var s1 := done + [0, 1];
    assert Execute(s, st, s1) == State([3], 0.0, [a3, b2, d]);
    schedule := SecondSubtracts(s, st, s1, a3, b2, d);
  }

  lemma SecondSubtracts(s: Sampler, st: State, done: seq<nat>, a: Call, b: Call, d: Call) returns (schedule: seq<nat>)
    requires AtHalf(s, st, [a, b, d]) && forall k :: 0 <= k < |done| ==> done[k] < |st.calls|
    requires Execute(s, st, done) == State([3], 0.0, [a, b, d])
    requires b.phase == LoadForSub(1) && d.phase == ReadProbability(2)
    ensures forall k :: 0 <= k < |schedule| ==> schedule[k] < |st.calls|
    ensures var c := Execute(s, st, schedule).calls[2];
            c.phase.SwapForSub? && c.result == -0.5
  {
    assert Pow(0.5, 1) == 0.5 * Pow(0.5, 0);
    RunOn(s, st, done, 1, 1, State([3], 0.0, [a, b, d]));
    var s1 := done + [1, 1];
    assert Execute(s, st, s1) == State([3], -0.5, [a, b.(phase := LoadForAdd), d]);
    RunOn(s, st, s1, 2, 2, State([3], -0.5, [a, b.(phase := LoadForAdd), d]));
    schedule := s1 + [2, 2];
  }
}
