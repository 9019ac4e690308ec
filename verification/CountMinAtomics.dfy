/** Lock-free CountMin.Insert (count_min.go): any number of calls, interleaved at the granularity of
    atomic load, fingerprint comparison, compare-and-swap and fingerprint copy. A fingerprint may be
    read while another call is copying over it, so the outcome of a comparison is left arbitrary. */
module CountMinAtomics {
  import opened Words

  datatype Metric = Size | Count

  /** One atomic word of the table: S or C of bucket (row, column). */
  datatype Slot = Slot(row: nat, column: nat, metric: Metric)

  /** A word with its past: the weight admitted by successful swaps and the calls that made them. */
  datatype Cell = Cell(word: uint32, admitted: nat, winners: seq<nat>)

  /** Where a call stands in the retry loop of its current stop. seen is the number of swaps the word
      had been through when it was loaded. */
  datatype Phase =
    | Load
    | Compare(cur: uint32, seen: nat)
    | Swap(cur: uint32, next: uint32, copy: bool, seen: nat)
    | Copying
    | Finished

  /** An Insert(flow, size) in progress. It visits 2 * d stops: S then C of its bucket, row by row. */
  datatype Call = Call(flow: Key, size: uint32, stop: nat, phase: Phase, swapped: seq<Slot>)

  datatype Table = Table(d: nat, column: (nat, Key) -> nat, fs: nat)

  /** The words, the fingerprints beside them, and the calls. */
  datatype State = State(cells: map<Slot, Cell>, fps: map<Slot, Key>, calls: seq<Call>)

  function CellAt(cells: map<Slot, Cell>, slot: Slot): Cell {
    if slot in cells then cells[slot] else Cell(0, 0, [])
  }

  function FingerprintAt(t: Table, s: State, slot: Slot): Key {
    if slot in s.fps then s.fps[slot] else Zeros(t.fs)
  }

  function Stop(t: Table, flow: Key, n: nat): Slot {
    Slot(n / 2, t.column(n / 2, flow), if n % 2 == 0 then Size else Count)
  }

  /** What a call adds to the weight of a slot: its bytes, or one packet. */
  function Amount(c: Call, m: Metric): uint32 {
    if m == Size then c.size else 1
  }

  function Sub32(a: uint32, b: uint32): uint32 {
    if a >= b then a - b else a - b + TWO_32
  }

  function NextStop(t: Table, c: Call): Call {
    c.(stop := c.stop + 1, phase := if c.stop + 1 < 2 * t.d then Load else Finished)
  }

  /** The next swap of a call whose fingerprint comparison came out as equal. */
  function Decide(c: Call, m: Metric, cur: uint32, seen: nat, equal: bool): Phase {
    var a := Amount(c, m);
    if equal then Swap(cur, Add32(cur, a), false, seen)
    else if m == Size && a > cur then Swap(cur, a, true, seen)
    else Swap(cur, Sub32(cur, a), m == Count && Sub32(cur, a) == 0, seen)
  }

  /** Call i takes one step; equal is the outcome of a comparison, if that is the step. */
  function Step(t: Table, s: State, i: nat, equal: bool): State
    requires i < |s.calls|
  {
    var c := s.calls[i];
    var slot := Stop(t, c.flow, c.stop);
    var cell := CellAt(s.cells, slot);
    match c.phase
    case Load =>
      var phase := if cell.word == 0 then Swap(0, Amount(c, slot.metric), true, |cell.winners|)
                   else Compare(cell.word, |cell.winners|);
      s.(calls := s.calls[i := c.(phase := phase)])
    case Compare(cur, seen) =>
      s.(calls := s.calls[i := c.(phase := Decide(c, slot.metric, cur, seen, equal))])
    case Swap(cur, next, copy, seen) =>
      if cell.word != cur then s.(calls := s.calls[i := c.(phase := Load)])
      else
        var won := c.(swapped := c.swapped + [slot]);
        var moved := if copy then won.(phase := Copying) else NextStop(t, won);
        s.(cells := s.cells[slot := Cell(next, cell.admitted + Amount(c, slot.metric), cell.winners + [i])],
           calls := s.calls[i := moved])
    case Copying =>
      s.(fps := s.fps[slot := CopyInto(FingerprintAt(t, s, slot), c.flow)], calls := s.calls[i := NextStop(t, c)])
    case Finished => s
  }

  predicate SameRequest(c: Call, e: Call) {
    c.flow == e.flow && c.size == e.size
  }

  /** A schedule names, step by step, the call that moves and the outcome of its comparison. */
  function Execute(t: Table, s: State, schedule: seq<(nat, bool)>): State
    requires forall k :: 0 <= k < |schedule| ==> schedule[k].0 < |s.calls|
    ensures |Execute(t, s, schedule).calls| == |s.calls|
    ensures forall i :: 0 <= i < |s.calls| ==> SameRequest(Execute(t, s, schedule).calls[i], s.calls[i])
  {
    if schedule == [] then s
    else
      var last := schedule[|schedule| - 1];
      Step(t, Execute(t, s, schedule[..|schedule| - 1]), last.0, last.1)
  }

  /** An empty table and calls that have not started. */
  ghost predicate Initial(t: Table, s: State) {
    && t.d > 0 && s.cells == map[] && s.fps == map[]
    && forall i :: 0 <= i < |s.calls| ==>
         s.calls[i].stop == 0 && s.calls[i].phase == Load && s.calls[i].swapped == []
  }

  // Invariant.

  /** The number of stops whose swap the call has won. */
  function Won(c: Call): nat {
    if c.phase == Copying then c.stop + 1 else c.stop
  }

  /** A pending swap is one of the three the code computes. */
  predicate Computed(c: Call, m: Metric, cur: uint32, next: uint32) {
    var a := Amount(c, m);
    || next == Add32(cur, a)
    || (next == a && (cur == 0 || m == Size))
    || (a <= cur && next == cur - a)
  }

  /** While its slot has seen no swap since the load, the word is the loaded one; the swaps since then
      are other calls'. */
  ghost predicate Fresh(cell: Cell, i: nat, cur: uint32, seen: nat) {
    && seen <= |cell.winners|
    && (seen == |cell.winners| ==> cell.word == cur)
    && forall k :: seen <= k < |cell.winners| ==> cell.winners[k] != i
  }

  ghost predicate CallOk(t: Table, s: State, i: nat)
    requires i < |s.calls|
  {
    var c := s.calls[i];
    var slot := Stop(t, c.flow, c.stop);
    && c.stop <= 2 * t.d && (c.phase == Finished <==> c.stop == 2 * t.d)
    && c.swapped == seq(Won(c), n requires n >= 0 => Stop(t, c.flow, n))
    && (c.phase.Compare? ==> c.phase.cur > 0 && Fresh(CellAt(s.cells, slot), i, c.phase.cur, c.phase.seen))
    && (c.phase.Swap? ==> Computed(c, slot.metric, c.phase.cur, c.phase.next)
                          && Fresh(CellAt(s.cells, slot), i, c.phase.cur, c.phase.seen))
  }

  /** A counter never exceeds the weight it was given, and a packet counter has its parity. */
  ghost predicate CellOk(slot: Slot, cell: Cell) {
    cell.admitted < TWO_32 ==>
      cell.word <= cell.admitted && (slot.metric == Count ==> cell.word % 2 == cell.admitted % 2)
  }

  /** The weight that the calls' won swaps gave to a slot: the bytes or packets hashed to it so far. */
  function Given(t: Table, calls: seq<Call>, slot: Slot): nat {
    if calls == [] then 0
    else
      var c := calls[|calls| - 1];
      Given(t, calls[..|calls| - 1], slot) + Share(t, c, slot)
  }

  function Share(t: Table, c: Call, slot: Slot): nat {
    if t.column(slot.row, c.flow) == slot.column && 2 * slot.row + (if slot.metric == Size then 0 else 1) < Won(c)
    then Amount(c, slot.metric) else 0
  }

  ghost predicate Inv(t: Table, s: State) {
    && (forall i :: 0 <= i < |s.calls| ==> CallOk(t, s, i))
    && (forall slot :: CellOk(slot, CellAt(s.cells, slot)))
    && (forall slot :: CellAt(s.cells, slot).admitted == Given(t, s.calls, slot))
  }

  lemma {:induction false} GivenUpdate(t: Table, calls: seq<Call>, i: nat, c: Call, slot: Slot)
    requires i < |calls|
    ensures Given(t, calls[i := c], slot) == Given(t, calls, slot) - Share(t, calls[i], slot) + Share(t, c, slot)
  {
    var n := |calls| - 1;
    if i == n {
      assert calls[i := c][..n] == calls[..n];
    } else {
      assert calls[i := c][..n] == calls[..n][i := c];
      GivenUpdate(t, calls[..n], i, c, slot);
    }
  }

  lemma {:induction false} GivenInitially(t: Table, calls: seq<Call>, slot: Slot)
    requires forall i :: 0 <= i < |calls| ==> Won(calls[i]) == 0
    ensures Given(t, calls, slot) == 0
  {
    if calls != [] {
      GivenInitially(t, calls[..|calls| - 1], slot);
    }
  }

  /** A won swap is the only step that changes a call's share, and it changes that of one slot. */
  lemma ShareOfWin(t: Table, c: Call, won: Call, slot: Slot)
    requires won.flow == c.flow && won.size == c.size && Won(won) == Won(c) + 1 && Won(c) == c.stop
    ensures Share(t, won, slot) == Share(t, c, slot)
            + (if slot == Stop(t, c.flow, c.stop) then Amount(c, slot.metric) else 0)
  {
  }

  lemma WinKeepsCell(slot: Slot, cell: Cell, c: Call, cur: uint32, next: uint32, i: nat)
    requires CellOk(slot, cell) && cell.word == cur && Computed(c, slot.metric, cur, next)
    ensures CellOk(slot, Cell(next, cell.admitted + Amount(c, slot.metric), cell.winners + [i]))
  {
  }

  lemma {:induction false} StepKeepsGiven(t: Table, s: State, i: nat, equal: bool, slot: Slot)
    requires i < |s.calls| && CallOk(t, s, i) && CellAt(s.cells, slot).admitted == Given(t, s.calls, slot)
    ensures var r := Step(t, s, i, equal);
            CellAt(r.cells, slot).admitted == Given(t, r.calls, slot)
  {
    var c := s.calls[i];
    var r := Step(t, s, i, equal);
    GivenUpdate(t, s.calls, i, r.calls[i], slot);
    assert r.calls == s.calls[i := r.calls[i]];
    if c.phase.Swap? && CellAt(s.cells, Stop(t, c.flow, c.stop)).word == c.phase.cur {
      ShareOfWin(t, c, r.calls[i], slot);
    }
  }

  lemma StepKeepsCell(t: Table, s: State, i: nat, equal: bool, slot: Slot)
    requires i < |s.calls| && CallOk(t, s, i) && CellOk(slot, CellAt(s.cells, slot))
    ensures CellOk(slot, CellAt(Step(t, s, i, equal).cells, slot))
  {
    var c := s.calls[i];
    var here := Stop(t, c.flow, c.stop);
    if slot == here && c.phase.Swap? && CellAt(s.cells, here).word == c.phase.cur {
      WinKeepsCell(here, CellAt(s.cells, here), c, c.phase.cur, c.phase.next, i);
    }
  }

  lemma StepKeepsOthers(t: Table, s: State, i: nat, equal: bool, j: nat)
    requires i < |s.calls| && j < |s.calls| && i != j && CallOk(t, s, j)
    ensures CallOk(t, Step(t, s, i, equal), j)
  {
    var r := Step(t, s, i, equal);
    var slot := Stop(t, s.calls[j].flow, s.calls[j].stop);
    assert r.calls[j] == s.calls[j];
    var before, after := CellAt(s.cells, slot), CellAt(r.cells, slot);
    assert after == before || after.winners == before.winners + [i];
  }

  lemma SwappedGrows(t: Table, flow: Key, n: nat)
    ensures seq(n + 1, k requires k >= 0 => Stop(t, flow, k)) ==
              seq(n, k requires k >= 0 => Stop(t, flow, k)) + [Stop(t, flow, n)]
  {
  }

  lemma StepKeepsMover(t: Table, s: State, i: nat, equal: bool)
    requires i < |s.calls| && CallOk(t, s, i)
    ensures CallOk(t, Step(t, s, i, equal), i)
  {
    var c := s.calls[i];
    if c.phase.Swap? && CellAt(s.cells, Stop(t, c.flow, c.stop)).word == c.phase.cur {
      SwappedGrows(t, c.flow, c.stop);
    }
  }

  lemma StepKeepsInv(t: Table, s: State, i: nat, equal: bool)
    requires i < |s.calls| && Inv(t, s)
    ensures Inv(t, Step(t, s, i, equal))
  {
    var r := Step(t, s, i, equal);
    forall j | 0 <= j < |r.calls| ensures CallOk(t, r, j) {
      if j == i {
        StepKeepsMover(t, s, i, equal);
      } else {
        StepKeepsOthers(t, s, i, equal, j);
      }
    }
    forall slot ensures CellOk(slot, CellAt(r.cells, slot))
                        && CellAt(r.cells, slot).admitted == Given(t, r.calls, slot) {
      StepKeepsGiven(t, s, i, equal, slot);
      StepKeepsCell(t, s, i, equal, slot);
    }
  }

  lemma {:induction false} EveryScheduleKeepsInv(t: Table, s: State, schedule: seq<(nat, bool)>)
    requires Initial(t, s)
    requires forall k :: 0 <= k < |schedule| ==> schedule[k].0 < |s.calls|
    ensures Inv(t, Execute(t, s, schedule))
  {
    if schedule == [] {
      forall slot ensures Given(t, s.calls, slot) == 0 {
        GivenInitially(t, s.calls, slot);
      }
    } else {
      var last := schedule[|schedule| - 1];
      EveryScheduleKeepsInv(t, s, schedule[..|schedule| - 1]);
      StepKeepsInv(t, Execute(t, s, schedule[..|schedule| - 1]), last.0, last.1);
    }
  }

  /** The weight hashed to a slot by all calls, finished or not: B or N of that bucket. */
  function Offered(t: Table, calls: seq<Call>, slot: Slot): nat {
    if calls == [] then 0
    else
      var c := calls[|calls| - 1];
      Offered(t, calls[..|calls| - 1], slot)
      + (if slot.row < t.d && t.column(slot.row, c.flow) == slot.column then Amount(c, slot.metric) else 0)
  }

  /** Swaps never give a slot more than it was offered, and give all of it once every call is done. */
  lemma {:induction false} GivenOfOffered(t: Table, calls: seq<Call>, requests: seq<Call>, slot: Slot)
    requires |calls| == |requests|
    requires forall i :: 0 <= i < |calls| ==> SameRequest(calls[i], requests[i]) && Won(calls[i]) <= 2 * t.d
    ensures Given(t, calls, slot) <= Offered(t, requests, slot)
    ensures (forall i :: 0 <= i < |calls| ==> calls[i].stop == 2 * t.d) ==>
              Given(t, calls, slot) == Offered(t, requests, slot)
  {
    if calls != [] {
      GivenOfOffered(t, calls[..|calls| - 1], requests[..|calls| - 1], slot);
    }
  }

  // Main results, for every schedule of every set of calls.

  /** When the weight hashed to a word is below 2^32, at every moment C <= N and S <= B, and C == N (mod 2)
      for the N packets counted so far, which are all of them once every call is done. */
  lemma {:induction false} CountersStayBelowTruth(t: Table, s: State, schedule: seq<(nat, bool)>, slot: Slot)
    requires Initial(t, s) && Offered(t, s.calls, slot) < TWO_32
    requires forall k :: 0 <= k < |schedule| ==> schedule[k].0 < |s.calls|
    ensures var r := Execute(t, s, schedule);
            && CellAt(r.cells, slot).word <= Given(t, r.calls, slot) <= Offered(t, s.calls, slot)
            && (slot.metric == Count ==> CellAt(r.cells, slot).word % 2 == Given(t, r.calls, slot) % 2)
            && (slot.metric == Count && (forall i :: 0 <= i < |r.calls| ==> r.calls[i].phase == Finished)
                ==> CellAt(r.cells, slot).word % 2 == Offered(t, s.calls, slot) % 2)
  {
    EveryScheduleKeepsInv(t, s, schedule);
    var r := Execute(t, s, schedule);
    forall i | 0 <= i < |r.calls| ensures Won(r.calls[i]) <= 2 * t.d
                                          && (r.calls[i].phase == Finished ==> r.calls[i].stop == 2 * t.d) {
      assert CallOk(t, r, i);
    }
    GivenOfOffered(t, r.calls, s.calls, slot);
    assert CellOk(slot, CellAt(r.cells, slot));
  }

  /** No subtraction underflows: a word that a call is about to store is the loaded one plus its amount, its
      amount alone, or a true difference; and a packet counter found with another flow is above 0. */
  lemma {:induction false} NoUnderflow(t: Table, s: State, schedule: seq<(nat, bool)>, i: nat)
    requires Initial(t, s) && i < |s.calls|
    requires forall k :: 0 <= k < |schedule| ==> schedule[k].0 < |s.calls|
    ensures var c := Execute(t, s, schedule).calls[i];
            var m := Stop(t, c.flow, c.stop).metric;
            var a := Amount(c, m);
            && (c.phase.Compare? ==> 0 < c.phase.cur)
            && (c.phase.Swap? ==>
                  || c.phase.next == Add32(c.phase.cur, a)
                  || (c.phase.next == a && (c.phase.cur == 0 || m == Size))
                  || c.phase.next as int == c.phase.cur as int - a as int)
  {
    EveryScheduleKeepsInv(t, s, schedule);
    assert CallOk(t, Execute(t, s, schedule), i);
  }

  /** A finished Insert won exactly one swap per row and metric, in program order. */
  lemma {:induction false} OneSwapPerStop(t: Table, s: State, schedule: seq<(nat, bool)>, i: nat)
    requires Initial(t, s) && i < |s.calls|
    requires forall k :: 0 <= k < |schedule| ==> schedule[k].0 < |s.calls|
    ensures var c := Execute(t, s, schedule).calls[i];
            c.phase == Finished ==> c.swapped == seq(2 * t.d, n requires n >= 0 => Stop(t, c.flow, n))
  {
    EveryScheduleKeepsInv(t, s, schedule);
    assert CallOk(t, Execute(t, s, schedule), i);
  }

  /** Lock freedom: a swap fails only if another call won a swap on the same word since the load. */
  lemma {:induction false} FailedSwapMeansAnotherWon(t: Table, s: State, schedule: seq<(nat, bool)>, i: nat)
    requires Initial(t, s) && i < |s.calls|
    requires forall k :: 0 <= k < |schedule| ==> schedule[k].0 < |s.calls|
    ensures var r := Execute(t, s, schedule);
            var c := r.calls[i];
            var cell := CellAt(r.cells, Stop(t, c.flow, c.stop));
            c.phase.Swap? && cell.word != c.phase.cur ==>
              c.phase.seen < |cell.winners| && forall k :: c.phase.seen <= k < |cell.winners| ==> cell.winners[k] != i
  {
    EveryScheduleKeepsInv(t, s, schedule);
    assert CallOk(t, Execute(t, s, schedule), i);
  }
}
