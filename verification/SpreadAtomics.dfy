/** The award loop of SuperSpread.Insert (super_spread.go) under any interleaving of the loads, swaps and
    copies of any number of Inserts on one cell, comparisons and draws having any outcome; and undisturbed,
    where it is the loop of SuperSpreadSketch. */
module SpreadAtomics {
  import opened Words
  import Votes = VoteCounters
  import Spread = SuperSpreadSketch

  /** What a call finds on a live cell: its own key, or another one, which it lowers or leaves. */
  datatype Outcome = Same | Decay | Stay

  /** Where an award loop stands. */
  datatype Phase =
    Next | Load | Compare(cur: uint32) | Claim | Copy | Raise(cur: uint32) | Lower(cur: uint32) | Finished

  /** A loop for a flow that still has left awards to make, and the swaps it won. */
  datatype Call = Call(flow: Key, left: nat, phase: Phase, raised: nat, lowered: nat)

  datatype State = State(value: uint32, key: Key, calls: seq<Call>)

  function Step(st: State, i: nat, outcome: Outcome): State
    requires i < |st.calls|
  {
    var c := st.calls[i];
    match c.phase
    case Next =>
      st.(calls := st.calls[i := if c.left == 0 then c.(phase := Finished) else c.(left := c.left - 1, phase := Load)])
    case Load => st.(calls := st.calls[i := c.(phase := if st.value == 0 then Claim else Compare(st.value))])
    case Compare(cur) =>
      st.(calls := st.calls[i := c.(phase := match outcome
                                             case Same => Raise(cur)
                                             case Decay => if cur > 0 then Lower(cur) else Next
                                             case Stay => Next)])
    case Claim =>
      if st.value == 0
      then st.(value := 1, calls := st.calls[i := c.(phase := Copy, raised := c.raised + 1)])
      else st.(calls := st.calls[i := c.(phase := Load)])
    case Copy => st.(key := CopyInto(st.key, c.flow), calls := st.calls[i := c.(phase := Next)])
    case Raise(cur) =>
      if st.value == cur
      then st.(value := Add32(cur, 1), calls := st.calls[i := c.(phase := Next, raised := c.raised + 1)])
      else st.(calls := st.calls[i := c.(phase := Load)])
    case Lower(cur) =>
      if st.value == cur && cur > 0
      then st.(value := cur - 1, calls := st.calls[i := c.(phase := Next, lowered := c.lowered + 1)])
      else st.(calls := st.calls[i := c.(phase := Load)])
    case Finished => st
  }

  function Execute(st: State, schedule: seq<(nat, Outcome)>): (r: State)
    requires forall k :: 0 <= k < |schedule| ==> schedule[k].0 < |st.calls|
    ensures |r.calls| == |st.calls|
  {
    if schedule == [] then st
    else
      var last := schedule[|schedule| - 1];
      Step(Execute(st, schedule[..|schedule| - 1]), last.0, last.1)
  }

  ghost predicate Initial(st: State) {
    && st.value == 0
    && forall i :: 0 <= i < |st.calls| ==>
         st.calls[i].phase == Next && st.calls[i].raised == 0 && st.calls[i].lowered == 0
  }

  // Every award wins at most one swap.

  /** An award that has not won its swap yet. */
  predicate Open(phase: Phase) {
    phase.Load? || phase.Compare? || phase.Claim? || phase.Raise? || phase.Lower?
  }

  /** The swaps won and the awards that may still win one. */
  function Used(c: Call): nat {
    c.raised + c.lowered + c.left + (if Open(c.phase) then 1 else 0)
  }

  function TotalUsed(calls: seq<Call>): nat {
    if calls == [] then 0 else TotalUsed(calls[..|calls| - 1]) + Used(calls[|calls| - 1])
  }

  function TotalRaised(calls: seq<Call>): nat {
    if calls == [] then 0 else TotalRaised(calls[..|calls| - 1]) + calls[|calls| - 1].raised
  }

  function TotalLowered(calls: seq<Call>): nat {
    if calls == [] then 0 else TotalLowered(calls[..|calls| - 1]) + calls[|calls| - 1].lowered
  }

  /** The weight that the calls admit to the cell. */
  function Admitted(calls: seq<Call>): nat {
    if calls == [] then 0 else Admitted(calls[..|calls| - 1]) + calls[|calls| - 1].left
  }

  lemma {:induction false} TotalsUpdate(calls: seq<Call>, i: nat, c: Call)
    requires i < |calls|
    ensures TotalUsed(calls[i := c]) == TotalUsed(calls) - Used(calls[i]) + Used(c)
    ensures TotalRaised(calls[i := c]) == TotalRaised(calls) - calls[i].raised + c.raised
    ensures TotalLowered(calls[i := c]) == TotalLowered(calls) - calls[i].lowered + c.lowered
  {
    var n := |calls| - 1;
    if i == n {
      assert calls[i := c][..n] == calls[..n];
    } else {
      assert calls[i := c][..n] == calls[..n][i := c];
      TotalsUpdate(calls[..n], i, c);
    }
  }

  lemma {:induction false} WonWithinUsed(calls: seq<Call>)
    ensures TotalRaised(calls) + TotalLowered(calls) <= TotalUsed(calls)
  {
    if calls != [] {
      WonWithinUsed(calls[..|calls| - 1]);
    }
  }

  ghost predicate Inv(st: State, admitted: nat) {
    && TotalUsed(st.calls) <= admitted
    && st.value + TotalLowered(st.calls) <= TotalRaised(st.calls)
    && (admitted < TWO_32 ==> st.value + TotalLowered(st.calls) == TotalRaised(st.calls))
  }

  lemma StepKeepsInv(st: State, i: nat, outcome: Outcome, admitted: nat)
    requires i < |st.calls| && Inv(st, admitted)
    ensures Inv(Step(st, i, outcome), admitted)
  {
    var r := Step(st, i, outcome);
    assert r.calls == st.calls[i := r.calls[i]];
    TotalsUpdate(st.calls, i, r.calls[i]);
    WonWithinUsed(r.calls);
  }

  lemma {:induction false} InitialTotals(calls: seq<Call>)
    requires forall i :: 0 <= i < |calls| ==>
               calls[i].phase == Next && calls[i].raised == 0 && calls[i].lowered == 0
    ensures TotalUsed(calls) == Admitted(calls) && TotalRaised(calls) == TotalLowered(calls) == 0
  {
    if calls != [] {
      InitialTotals(calls[..|calls| - 1]);
    }
  }

  lemma {:induction false} EveryScheduleKeepsInv(st: State, schedule: seq<(nat, Outcome)>)
    requires Initial(st) && forall k :: 0 <= k < |schedule| ==> schedule[k].0 < |st.calls|
    ensures Inv(Execute(st, schedule), Admitted(st.calls))
  {
    if schedule == [] {
      InitialTotals(st.calls);
    } else {
      var last := schedule[|schedule| - 1];
      EveryScheduleKeepsInv(st, schedule[..|schedule| - 1]);
      StepKeepsInv(Execute(st, schedule[..|schedule| - 1]), last.0, last.1, Admitted(st.calls));
    }
  }

  /** Under every schedule the value is at most the weight admitted to the cell less twice the decays that
      took effect; and below 2^32 of weight it is exactly the raises less the decays. */
  lemma {:induction false} ValueWithinAdmitted(st: State, schedule: seq<(nat, Outcome)>)
    requires Initial(st) && forall k :: 0 <= k < |schedule| ==> schedule[k].0 < |st.calls|
    ensures var r := Execute(st, schedule);
            && r.value + 2 * TotalLowered(r.calls) <= Admitted(st.calls)
            && (Admitted(st.calls) < TWO_32 ==> r.value == TotalRaised(r.calls) - TotalLowered(r.calls))
  {
    EveryScheduleKeepsInv(st, schedule);
    WonWithinUsed(Execute(st, schedule).calls);
  }

  // No award is lost to a failed swap.

  /** A call that has won a swap for every award it has made and is not at work on. */
  predicate KeepsUp(c: Call, left: nat) {
    && Used(c) == left
    && (c.phase.Compare? || c.phase.Lower? ==> c.phase.cur > 0)
    && (c.phase.Finished? ==> c.left == 0)
  }

  lemma StepKeepsUp(st: State, i: nat, outcome: Outcome, j: nat, left: nat)
    requires i < |st.calls| && j < |st.calls| && outcome != Stay && KeepsUp(st.calls[j], left)
    ensures KeepsUp(Step(st, i, outcome).calls[j], left)
  {
  }

  /** Under every schedule in which no comparison ends in leaving the cell alone, each award wins exactly one swap:
      a finished loop has raised and lowered the cell as often as it had awards, however many swaps it lost. */
  lemma {:induction false} EveryAwardWinsASwap(st: State, schedule: seq<(nat, Outcome)>, j: nat)
    requires Initial(st) && j < |st.calls|
    requires forall k :: 0 <= k < |schedule| ==> schedule[k].0 < |st.calls| && schedule[k].1 != Stay
    ensures var c := Execute(st, schedule).calls[j];
            KeepsUp(c, st.calls[j].left) && (c.phase.Finished? ==> c.raised + c.lowered == st.calls[j].left)
  {
    if schedule != [] {
      var last := schedule[|schedule| - 1];
      EveryAwardWinsASwap(st, schedule[..|schedule| - 1], j);
      StepKeepsUp(Execute(st, schedule[..|schedule| - 1]), last.0, last.1, j, st.calls[j].left);
    }
  }

  // A loop that nobody disturbs.

  function CounterOf(st: State): Votes.Counter {
    Votes.Counter(st.key, st.value)
  }

  /** What call i finds, with draw n. */
  function Finds(b: real, random: nat -> real, n: nat, st: State, i: nat): Outcome
    requires b != 0.0 && i < |st.calls|
  {
    if st.key == st.calls[i].flow then Same
    else if Spread.Decays(b, st.value, random(n)) then Decay
    else Stay
  }

  /** Four steps of call i, or as many as one award takes. */
  function OneAward(st: State, i: nat, outcome: Outcome): State
    requires i < |st.calls|
  {
    var s2 := Step(Step(st, i, outcome), i, outcome);
    var s3 := Step(s2, i, outcome);
    if s3.calls[i].phase.Next? then s3 else Step(s3, i, outcome)
  }

  lemma OneAwardIsStep(b: real, random: nat -> real, n: nat, st: State, i: nat)
    requires b != 0.0 && i < |st.calls| && st.calls[i].phase == Next && st.calls[i].left > 0
    ensures var r := OneAward(st, i, Finds(b, random, n, st, i));
            && |r.calls| == |st.calls| && r.calls[i].phase == Next && r.calls[i].left == st.calls[i].left - 1
            && r.calls[i].flow == st.calls[i].flow
            && CounterOf(r) == Spread.AwardStep(b, random, n, CounterOf(st), st.calls[i].flow).0
  {
  }

  lemma {:induction false} StepOn(st: State, done: seq<(nat, Outcome)>, i: nat, outcome: Outcome)
    requires i < |st.calls| && forall k :: 0 <= k < |done| ==> done[k].0 < |st.calls|
    ensures Execute(st, done + [(i, outcome)]) == Step(Execute(st, done), i, outcome)
  {
    assert (done + [(i, outcome)])[..|done|] == done;
  }

  lemma AwardIsScheduled(st: State, done: seq<(nat, Outcome)>, i: nat, outcome: Outcome)
    returns (schedule: seq<(nat, Outcome)>)
    requires i < |st.calls| && forall k :: 0 <= k < |done| ==> done[k].0 < |st.calls|
    ensures forall k :: 0 <= k < |schedule| ==> schedule[k].0 < |st.calls|
    ensures Execute(st, schedule) == OneAward(Execute(st, done), i, outcome)
  {
    var step := [(i, outcome)];
    StepOn(st, done, i, outcome);
    StepOn(st, done + step, i, outcome);
    StepOn(st, done + step + step, i, outcome);
    schedule := done + step + step + step;
    if !Execute(st, schedule).calls[i].phase.Next? {
      StepOn(st, schedule, i, outcome);
      schedule := schedule + step;
    }
  }

  /** A loop alone, from any state that a schedule reached, does to the cell what AwardRun says; a schedule
      continues that way. */
  lemma {:induction false} AwardsInTurn(b: real, random: nat -> real, n: nat, st: State, done: seq<(nat, Outcome)>,
                                        i: nat) returns (schedule: seq<(nat, Outcome)>)
    requires b != 0.0 && i < |st.calls| && forall k :: 0 <= k < |done| ==> done[k].0 < |st.calls|
    requires Execute(st, done).calls[i].phase == Next
    ensures forall k :: 0 <= k < |schedule| ==> schedule[k].0 < |st.calls|
    ensures var was, r := Execute(st, done), Execute(st, schedule);
            && r.calls[i].phase == Finished
            && CounterOf(r) ==
               Spread.AwardRun(b, random, n, CounterOf(was), was.calls[i].flow, was.calls[i].left).0
    decreases Execute(st, done).calls[i].left
  {
    var was := Execute(st, done);
    if was.calls[i].left == 0 {
      StepOn(st, done, i, Stay);
      schedule := done + [(i, Stay)];
    } else {
      var outcome := Finds(b, random, n, was, i);
      OneAwardIsStep(b, random, n, was, i);
      var next := AwardIsScheduled(st, done, i, outcome);
      var m := Spread.AwardStep(b, random, n, CounterOf(was), was.calls[i].flow).1;
      schedule := AwardsInTurn(b, random, m, st, next, i);
    }
  }
}
