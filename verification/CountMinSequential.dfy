/** The lock-free Insert and the sequential one agree: calls that run one after the other, comparing
    fingerprints as they are, take the steps of VoteCounters. */
module CountMinSequential {
  import opened Words
  import opened CountMinAtomics
  import Votes = VoteCounters

  /** The outcome of a comparison that nobody disturbs. */
  function Compares(t: Table, s: State, i: nat): bool
    requires i < |s.calls|
  {
    FingerprintAt(t, s, Stop(t, s.calls[i].flow, s.calls[i].stop)) == s.calls[i].flow
  }

  /** One step of call i, if there is one. */
  function Alone(t: Table, i: nat): State -> State {
    (s: State) => if i < |s.calls| then Step(t, s, i, Compares(t, s, i)) else s
  }

  function Iterate<S>(f: S -> S, s: S, n: nat): S {
    if n == 0 then s else Iterate(f, f(s), n - 1)
  }

  lemma {:induction false} IterateAdds<S>(f: S -> S, s: S, m: nat, n: nat)
    ensures Iterate(f, s, m + n) == Iterate(f, Iterate(f, s, m), n)
  {
    if m > 0 {
      IterateAdds(f, f(s), m - 1, n);
    }
  }

  lemma FirstSteps<S>(f: S -> S, s: S)
    ensures Iterate(f, s, 3) == f(f(f(s))) && Iterate(f, s, 4) == f(f(f(f(s))))
  {
    assert Iterate(f, f(f(f(s))), 0) == f(f(f(s)));
    assert Iterate(f, f(f(s)), 1) == f(f(f(s)));
    assert Iterate(f, f(s), 2) == f(f(f(s)));
    assert Iterate(f, f(f(f(s))), 1) == f(f(f(f(s))));
    assert Iterate(f, f(f(s)), 2) == f(f(f(f(s))));
    assert Iterate(f, f(s), 3) == f(f(f(f(s))));
  }

  /** Call i takes n steps alone. */
  function Solo(t: Table, s: State, i: nat, n: nat): State {
    Iterate(Alone(t, i), s, n)
  }

  function CounterAt(t: Table, s: State, slot: Slot): Votes.Counter {
    Votes.Counter(FingerprintAt(t, s, slot), CellAt(s.cells, slot).word)
  }

  function Updated(c: Votes.Counter, m: Metric, flow: Key, size: uint32): Votes.Counter {
    if m == Size then Votes.SizeUpdate(c, flow, size) else Votes.CountUpdate(c, flow)
  }

  /** Only call i moved, to the given stop, with its request unchanged. */
  ghost predicate MovedTo(t: Table, s: State, r: State, i: nat, stop: nat)
    requires i < |s.calls|
  {
    && |r.calls| == |s.calls| && SameRequest(r.calls[i], s.calls[i])
    && r.calls[i].stop == stop && r.calls[i].phase == (if stop < 2 * t.d then Load else Finished)
    && forall j :: 0 <= j < |s.calls| && j != i ==> r.calls[j] == s.calls[j]
  }

  /** r is s after one stop of call i: one update of its counter, and of no other. */
  ghost predicate StopDone(t: Table, s: State, r: State, i: nat)
    requires i < |s.calls|
  {
    var c := s.calls[i];
    var slot := Stop(t, c.flow, c.stop);
    && MovedTo(t, s, r, i, c.stop + 1)
    && CounterAt(t, r, slot) == Updated(CounterAt(t, s, slot), slot.metric, c.flow, c.size)
    && forall other :: other != slot ==> CounterAt(t, r, other) == CounterAt(t, s, other)
  }

  /** On an empty counter: load, swap, copy. */
  lemma StopOnEmpty(t: Table, s: State, i: nat)
    requires i < |s.calls| && s.calls[i].phase == Load && s.calls[i].stop < 2 * t.d
    requires CellAt(s.cells, Stop(t, s.calls[i].flow, s.calls[i].stop)).word == 0
    ensures var f := Alone(t, i); StopDone(t, s, f(f(f(s))), i)
  {
  }

  /** On a live one: load, compare, swap, and copy if the fingerprint changes. */
  lemma StopOnLive(t: Table, s: State, i: nat)
    requires i < |s.calls| && s.calls[i].phase == Load && s.calls[i].stop < 2 * t.d
    requires CellAt(s.cells, Stop(t, s.calls[i].flow, s.calls[i].stop)).word > 0
    ensures var f := Alone(t, i); StopDone(t, s, f(f(f(s))), i) || StopDone(t, s, f(f(f(f(s)))), i)
  {
    var f := Alone(t, i);
    var s2 := f(f(s));
    assert s2.calls[i].phase.Swap?;
  }

  lemma OneStop(t: Table, s: State, i: nat) returns (n: nat)
    requires i < |s.calls| && s.calls[i].phase == Load && s.calls[i].stop < 2 * t.d
    ensures StopDone(t, s, Solo(t, s, i, n), i)
  {
    FirstSteps(Alone(t, i), s);
    if CellAt(s.cells, Stop(t, s.calls[i].flow, s.calls[i].stop)).word == 0 {
      StopOnEmpty(t, s, i);
      n := 3;
    } else {
      StopOnLive(t, s, i);
      n := if StopDone(t, s, Solo(t, s, i, 3), i) then 3 else 4;
    }
  }

  /** The place of a slot among the stops. */
  function Place(slot: Slot): nat {
    2 * slot.row + (if slot.metric == Size then 0 else 1)
  }

  lemma StopAtPlace(t: Table, flow: Key, n: nat, slot: Slot)
    ensures Place(Stop(t, flow, n)) == n
    ensures Stop(t, flow, Place(slot)) == slot <==> t.column(slot.row, flow) == slot.column
  {
  }

  /** What the stops from m to n of a call make of a counter. */
  function After(t: Table, s: State, i: nat, slot: Slot, m: nat, n: nat): Votes.Counter
    requires i < |s.calls|
  {
    var c := s.calls[i];
    if m <= Place(slot) < n && t.column(slot.row, c.flow) == slot.column
    then Updated(CounterAt(t, s, slot), slot.metric, c.flow, c.size)
    else CounterAt(t, s, slot)
  }

  lemma {:induction false} StopsFrom(t: Table, s: State, i: nat) returns (n: nat)
    requires i < |s.calls| && s.calls[i].stop <= 2 * t.d
    requires s.calls[i].phase == (if s.calls[i].stop < 2 * t.d then Load else Finished)
    ensures var r := Solo(t, s, i, n);
            && MovedTo(t, s, r, i, 2 * t.d)
            && forall slot :: CounterAt(t, r, slot) == After(t, s, i, slot, s.calls[i].stop, 2 * t.d)
    decreases 2 * t.d - s.calls[i].stop
  {
    var c := s.calls[i];
    if c.stop == 2 * t.d {
      n := 0;
    } else {
      var m := OneStop(t, s, i);
      var next := Solo(t, s, i, m);
      var rest := StopsFrom(t, next, i);
      n := m + rest;
      IterateAdds(Alone(t, i), s, m, rest);
      forall slot ensures CounterAt(t, Solo(t, s, i, n), slot) == After(t, s, i, slot, c.stop, 2 * t.d) {
        AfterOneStop(t, s, next, i, slot, c.stop);
        assert CounterAt(t, Solo(t, next, i, rest), slot) == After(t, next, i, slot, c.stop + 1, 2 * t.d);
      }
    }
  }

  lemma AfterOneStop(t: Table, s: State, next: State, i: nat, slot: Slot, m: nat)
    requires i < |s.calls| == |next.calls| && SameRequest(next.calls[i], s.calls[i]) && m < 2 * t.d
    requires var c, here := s.calls[i], Stop(t, s.calls[i].flow, m);
             CounterAt(t, next, slot) ==
             if slot == here then Updated(CounterAt(t, s, slot), slot.metric, c.flow, c.size) else CounterAt(t, s, slot)
    ensures After(t, next, i, slot, m + 1, 2 * t.d) == After(t, s, i, slot, m, 2 * t.d)
  {
    StopAtPlace(t, s.calls[i].flow, m, slot);
  }

  /** The whole of Insert, alone: the counters of the flow's buckets are updated, and no others. */
  lemma OneCall(t: Table, s: State, i: nat) returns (n: nat)
    requires i < |s.calls| && s.calls[i].stop == 0 && s.calls[i].phase == Load && t.d > 0
    ensures var c, r := s.calls[i], Solo(t, s, i, n);
            && MovedTo(t, s, r, i, 2 * t.d)
            && forall slot :: CounterAt(t, r, slot) ==
                 if slot.row < t.d && t.column(slot.row, c.flow) == slot.column
                 then Updated(CounterAt(t, s, slot), slot.metric, c.flow, c.size)
                 else CounterAt(t, s, slot)
  {
    n := StopsFrom(t, s, i);
    forall slot: Slot ensures slot.row < t.d <==> Place(slot) < 2 * t.d {
    }
  }

  /** The calls as packets, in order. */
  function PacketsOf(calls: seq<Call>): (h: seq<Votes.Packet>)
    ensures |h| == |calls|
  {
    if calls == [] then []
    else PacketsOf(calls[..|calls| - 1]) + [Votes.Packet(calls[|calls| - 1].flow, calls[|calls| - 1].size)]
  }

  function Row(t: Table, row: nat): Key -> uint32 {
    f => t.column(row, f) % TWO_32
  }

  function ReplayOf(run: seq<Votes.Packet>, fs: nat, m: Metric): Votes.Counter {
    if m == Size then Votes.SizeReplay(run, fs) else Votes.CountReplay(run, fs)
  }

  /** A counter of the sequential sketch after these calls. */
  function Replayed(t: Table, calls: seq<Call>, slot: Slot): Votes.Counter {
    ReplayOf(Votes.Routed(PacketsOf(calls), Row(t, slot.row), slot.column), t.fs, slot.metric)
  }

  lemma ReplayedNext(t: Table, calls: seq<Call>, slot: Slot)
    requires calls != [] && forall row, f :: t.column(row, f) < TWO_32
    ensures var c, before := calls[|calls| - 1], Replayed(t, calls[..|calls| - 1], slot);
            Replayed(t, calls, slot) ==
            if t.column(slot.row, c.flow) == slot.column then Updated(before, slot.metric, c.flow, c.size) else before
  {
    var init, c := calls[..|calls| - 1], calls[|calls| - 1];
    var h, p := PacketsOf(init), Votes.Packet(c.flow, c.size);
    assert PacketsOf(calls) == h + [p];
    RoutedNext(h, p, Row(t, slot.row), slot.column);
    UpdatesReplay(Votes.Routed(h, Row(t, slot.row), slot.column), t.fs, slot.metric, p);
  }

  lemma UpdatesReplay(run: seq<Votes.Packet>, fs: nat, m: Metric, p: Votes.Packet)
    ensures ReplayOf(run + [p], fs, m) == Updated(ReplayOf(run, fs, m), m, p.flow, p.size)
  {
    Votes.Append(run, fs, p, p.flow);
  }

  lemma {:induction false} RoutedNext(h: seq<Votes.Packet>, p: Votes.Packet, column: Key -> uint32, j: int)
    ensures Votes.Routed(h + [p], column, j)
            == if column(p.flow) == j then Votes.Routed(h, column, j) + [p] else Votes.Routed(h, column, j)
  {
    assert (h + [p])[..|h|] == h;
  }

  /** n calls one after the other, from an empty table. */
  ghost predicate InTurn(t: Table, s: State, r: State, n: nat)
    requires n <= |s.calls|
  {
    && |r.calls| == |s.calls|
    && (forall i :: 0 <= i < n ==> r.calls[i].phase == Finished)
    && (forall i :: n <= i < |s.calls| ==> r.calls[i] == s.calls[i])
    && forall slot: Slot :: slot.row < t.d ==> CounterAt(t, r, slot) == Replayed(t, s.calls[..n], slot)
  }

  /** Calls that run one after the other leave every counter as the sequential Insert does, in a state that
      some schedule reaches. */
  lemma {:induction false} CallsInTurn(t: Table, s: State, n: nat) returns (r: State, schedule: seq<(nat, bool)>)
    requires Initial(t, s) && n <= |s.calls| && forall row, f :: t.column(row, f) < TWO_32
    ensures InTurn(t, s, r, n)
    ensures (forall k :: 0 <= k < |schedule| ==> schedule[k].0 < |s.calls|) && Execute(t, s, schedule) == r
  {
    if n == 0 {
      r, schedule := s, [];
      assert s.calls[..0] == [];
    } else {
      var before, sched := CallsInTurn(t, s, n - 1);
      var steps := OneCall(t, before, n - 1);
      r := Solo(t, before, n - 1, steps);
      schedule := SoloIsScheduled(t, s, sched, before, n - 1, steps);
      OneMoreTurn(t, s, before, r, n);
    }
  }

  lemma OneMoreTurn(t: Table, s: State, before: State, r: State, n: nat)
    requires forall row, f :: t.column(row, f) < TWO_32
    requires 0 < n <= |s.calls| && InTurn(t, s, before, n - 1) && MovedTo(t, before, r, n - 1, 2 * t.d)
    requires forall slot: Slot :: CounterAt(t, r, slot) ==
               if slot.row < t.d && t.column(slot.row, s.calls[n - 1].flow) == slot.column
               then Updated(CounterAt(t, before, slot), slot.metric, s.calls[n - 1].flow, s.calls[n - 1].size)
               else CounterAt(t, before, slot)
    ensures InTurn(t, s, r, n)
  {
    assert s.calls[..n][..n - 1] == s.calls[..n - 1] && s.calls[..n][n - 1] == s.calls[n - 1];
    forall slot: Slot | slot.row < t.d ensures CounterAt(t, r, slot) == Replayed(t, s.calls[..n], slot) {
      ReplayedNext(t, s.calls[..n], slot);
    }
  }

  lemma {:induction false} SoloIsScheduled(t: Table, s: State, sched: seq<(nat, bool)>, before: State, i: nat, n: nat)
    returns (schedule: seq<(nat, bool)>)
    requires i < |s.calls|
    requires (forall k :: 0 <= k < |sched| ==> sched[k].0 < |s.calls|) && Execute(t, s, sched) == before
    ensures (forall k :: 0 <= k < |schedule| ==> schedule[k].0 < |s.calls|)
    ensures Execute(t, s, schedule) == Solo(t, before, i, n)
    decreases n
  {
    if n == 0 {
      schedule := sched;
    } else {
      var longer := sched + [(i, Compares(t, before, i))];
      assert longer[..|sched|] == sched;
      schedule := SoloIsScheduled(t, s, longer, Alone(t, i)(before), i, n - 1);
    }
  }
}
