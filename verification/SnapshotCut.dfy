/** Snapshot, Reset and ProcessPacket at the same time (exact/task.go). A snapshot copies each shard under
    that shard's lock, one shard at a time and in any order, and a reset empties them likewise, while
    packets keep arriving. */
module SnapshotCut {
  import opened Words
  import opened Packets
  import opened FlowTotals

  /** A packet is processed, the snapshot copies a shard, or a reset empties one. */
  datatype Event = Arrive(p: PacketInfo) | CopyOf(i: nat) | ResetOf(i: nat)

  /** The packets that the shards hold, in order of arrival, and the shards copied so far. */
  datatype State = State(history: seq<PacketInfo>, copies: map<nat, map<string, Record>>)

  /** What shard i holds. */
  function ShardOf(m: map<string, Record>, route: string -> nat, i: nat): map<string, Record> {
    map k | k in m && route(k) == i :: m[k]
  }

  /** The packet is counted in shard i. */
  predicate Goes(s: Scheme, route: string -> nat, p: PacketInfo, i: nat) {
    s.Known() && route(s.KeyOf(p.fiveTuple)) == i
  }

  /** The packets counted in shard i. */
  function Own(s: Scheme, route: string -> nat, h: seq<PacketInfo>, i: nat): (own: seq<PacketInfo>)
    ensures |own| <= |h|
  {
    if h == [] then []
    else
      var rest := Own(s, route, h[..|h| - 1], i);
      if Goes(s, route, h[|h| - 1], i) then rest + [h[|h| - 1]] else rest
  }

  /** The packets that remain when shard i is emptied. */
  function Without(s: Scheme, route: string -> nat, h: seq<PacketInfo>, i: nat): seq<PacketInfo> {
    if h == [] then []
    else
      var rest := Without(s, route, h[..|h| - 1], i);
      if Goes(s, route, h[|h| - 1], i) then rest else rest + [h[|h| - 1]]
  }

  function Step(s: Scheme, route: string -> nat, st: State, e: Event): State {
    match e
    case Arrive(p) => st.(history := st.history + [p])
    case CopyOf(i) =>
      if i in st.copies then st else st.(copies := st.copies[i := ShardOf(Replay(s, st.history), route, i)])
    case ResetOf(i) => st.(history := Without(s, route, st.history, i))
  }

  function Execute(s: Scheme, route: string -> nat, st: State, events: seq<Event>): State {
    if events == [] then st else Step(s, route, Execute(s, route, st, events[..|events| - 1]), events[|events| - 1])
  }

  /** From the call of Snapshot on, when the shards hold h. */
  function Run(s: Scheme, route: string -> nat, h: seq<PacketInfo>, events: seq<Event>): State {
    Execute(s, route, State(h, map[]), events)
  }

  function Arrivals(events: seq<Event>): seq<PacketInfo> {
    if events == [] then []
    else
      var rest := Arrivals(events[..|events| - 1]);
      if events[|events| - 1].Arrive? then rest + [events[|events| - 1].p] else rest
  }

  // What a shard is made of.

  lemma {:induction false} OwnAppend(s: Scheme, route: string -> nat, h: seq<PacketInfo>, p: PacketInfo, i: nat)
    ensures Own(s, route, h + [p], i) ==
            if Goes(s, route, p, i) then Own(s, route, h, i) + [p] else Own(s, route, h, i)
  {
    assert (h + [p])[..|h|] == h;
  }

  /** A shard is the replay of the packets counted in it. */
  lemma {:induction false} ShardIsOwn(s: Scheme, route: string -> nat, h: seq<PacketInfo>, i: nat)
    ensures ShardOf(Replay(s, h), route, i) == Replay(s, Own(s, route, h, i))
  {
    if h != [] {
      var init, p := h[..|h| - 1], h[|h| - 1];
      ShardIsOwn(s, route, init, i);
      TouchInShard(s, route, Replay(s, init), p, i);
      if Goes(s, route, p, i) {
        ReplayAppend(s, Own(s, route, init, i), p);
      }
    }
  }

  lemma TouchInShard(s: Scheme, route: string -> nat, m: map<string, Record>, p: PacketInfo, i: nat)
    ensures ShardOf(Touch(s, m, p), route, i) ==
            if Goes(s, route, p, i) then Touch(s, ShardOf(m, route, i), p) else ShardOf(m, route, i)
  {
  }

  lemma {:induction false} OwnOfWithout(s: Scheme, route: string -> nat, h: seq<PacketInfo>, i: nat, j: nat)
    ensures Own(s, route, Without(s, route, h, i), j) == if i == j then [] else Own(s, route, h, j)
  {
    if h != [] {
      var init, p := h[..|h| - 1], h[|h| - 1];
      OwnOfWithout(s, route, init, i, j);
      OwnAppend(s, route, Without(s, route, init, i), p, j);
    }
  }

  /** Emptying a shard is what ResetOf does to it, and no other shard changes. */
  lemma {:induction false} ResetEmptiesShard(s: Scheme, route: string -> nat, st: State, i: nat, j: nat)
    ensures ShardOf(Replay(s, Step(s, route, st, ResetOf(i)).history), route, j) ==
            if i == j then map[] else ShardOf(Replay(s, st.history), route, j)
  {
    ShardIsOwn(s, route, Without(s, route, st.history, i), j);
    ShardIsOwn(s, route, st.history, j);
    OwnOfWithout(s, route, st.history, i, j);
  }

  lemma {:induction false} OwnIsPart(s: Scheme, route: string -> nat, h: seq<PacketInfo>, i: nat)
    ensures SizeSum(Own(s, route, h, i)) <= SizeSum(h)
    ensures Own(s, route, h, i) != [] ==> s.Known()
  {
    if h != [] {
      var init, p := h[..|h| - 1], h[|h| - 1];
      OwnIsPart(s, route, init, i);
      SizeSumAppend(Own(s, route, init, i), p);
    }
  }

  // Every copy is of what a shard held at one moment.

  /** Shard i was copied after t packets, no earlier than the call, when it had last been emptied after the
      first c of them. */
  predicate CopiedFrom(s: Scheme, route: string -> nat, called: nat, all: seq<PacketInfo>,
                       copies: map<nat, map<string, Record>>, i: nat, c: nat, t: nat)
  {
    c <= t && called <= t <= |all| && i in copies && copies[i] == ShardOf(Replay(s, all[c..t]), route, i)
  }

  lemma {:induction false} OwnSince(s: Scheme, route: string -> nat, h: seq<PacketInfo>, events: seq<Event>, i: nat)
    returns (c: nat)
    ensures var all := h + Arrivals(events);
            c <= |all| && Own(s, route, Run(s, route, h, events).history, i) == Own(s, route, all[c..], i)
  {
    var all := h + Arrivals(events);
    if events == [] {
      c := 0;
      assert all[0..] == h;
    } else {
      var n, e := |events| - 1, events[|events| - 1];
      var before := h + Arrivals(events[..n]);
      var was := Run(s, route, h, events[..n]);
      c := OwnSince(s, route, h, events[..n], i);
      match e {
        case Arrive(p) =>
          assert all == before + [p] && all[c..] == before[c..] + [p];
          OwnAppend(s, route, before[c..], p, i);
          OwnAppend(s, route, was.history, p, i);
        case CopyOf(_) =>
        case ResetOf(j) =>
          OwnOfWithout(s, route, was.history, j, i);
          if i == j {
            c := |all|;
          }
      }
    }
  }

  /** However packets, copies and resets interleave, each copied shard is what arrived in it from its last
      reset up to one moment since the call. */
  lemma {:induction false} EveryCopyIsACut(s: Scheme, route: string -> nat, h: seq<PacketInfo>, events: seq<Event>,
                                           i: nat)
    returns (c: nat, t: nat)
    requires i in Run(s, route, h, events).copies
    ensures CopiedFrom(s, route, |h|, h + Arrivals(events), Run(s, route, h, events).copies, i, c, t)
  {
    assert events != [];
    var n := |events| - 1;
    var was := Run(s, route, h, events[..n]);
    var before, all := h + Arrivals(events[..n]), h + Arrivals(events);
    assert before <= all;
    if i in was.copies {
      c, t := EveryCopyIsACut(s, route, h, events[..n], i);
      assert all[c..t] == before[c..t];
    } else {
      c := OwnSince(s, route, h, events[..n], i);
      t := |before|;
      CopyTakesShard(s, route, was, events[n], i);
      assert all[c..t] == before[c..];
      SameOwnSameShard(s, route, was.history, before[c..], i);
    }
  }

  lemma CopyTakesShard(s: Scheme, route: string -> nat, st: State, e: Event, i: nat)
    requires i !in st.copies && i in Step(s, route, st, e).copies
    ensures Step(s, route, st, e).copies[i] == ShardOf(Replay(s, st.history), route, i)
  {
  }

  lemma {:induction false} SameOwnSameShard(s: Scheme, route: string -> nat, g: seq<PacketInfo>, h: seq<PacketInfo>,
                                            i: nat)
    requires Own(s, route, g, i) == Own(s, route, h, i)
    ensures ShardOf(Replay(s, g), route, i) == ShardOf(Replay(s, h), route, i)
  {
    ShardIsOwn(s, route, g, i);
    ShardIsOwn(s, route, h, i);
  }

  // A copy misses something exactly when its shard was emptied too early.

  function HeldBy(s: Scheme, route: string -> nat, h: seq<PacketInfo>, events: seq<Event>, i: nat): seq<PacketInfo> {
    Own(s, route, Run(s, route, h, events).history, i)
  }

  function ArrivedAt(s: Scheme, route: string -> nat, h: seq<PacketInfo>, events: seq<Event>, i: nat): seq<PacketInfo> {
    Own(s, route, h + Arrivals(events), i)
  }

  /** Event k empties shard i although it holds something and has not been copied. */
  predicate Tears(s: Scheme, route: string -> nat, h: seq<PacketInfo>, events: seq<Event>, k: nat, i: nat) {
    && k < |events| && events[k] == ResetOf(i) && i !in Run(s, route, h, events[..k]).copies
    && HeldBy(s, route, h, events[..k], i) != []
  }

  ghost predicate TornBy(s: Scheme, route: string -> nat, h: seq<PacketInfo>, events: seq<Event>, m: nat, i: nat) {
    exists k: nat :: k < m && Tears(s, route, h, events, k, i)
  }

  /** Event n makes the copy of shard i. */
  predicate CopyAt(s: Scheme, route: string -> nat, h: seq<PacketInfo>, events: seq<Event>, n: nat, i: nat) {
    n < |events| && events[n] == CopyOf(i) && i !in Run(s, route, h, events[..n]).copies
  }

  lemma {:induction false} CopiesStay(s: Scheme, route: string -> nat, h: seq<PacketInfo>, events: seq<Event>,
                                      m: nat, i: nat)
    requires m <= |events| && i in Run(s, route, h, events[..m]).copies
    ensures var was, st := Run(s, route, h, events[..m]), Run(s, route, h, events);
            i in st.copies && st.copies[i] == was.copies[i]
    decreases |events|
  {
    if m < |events| {
      assert events[..|events| - 1][..m] == events[..m];
      CopiesStay(s, route, h, events[..|events| - 1], m, i);
    } else {
      assert events[..m] == events;
    }
  }

  /** Up to the copy, the shard holds everything that arrived in it, or strictly less once it was torn. */
  lemma {:induction false} HeldUntilCopy(s: Scheme, route: string -> nat, h: seq<PacketInfo>, events: seq<Event>,
                                         m: nat, i: nat)
    requires m <= |events| && i !in Run(s, route, h, events[..m]).copies
    ensures var held, arrived := HeldBy(s, route, h, events[..m], i), ArrivedAt(s, route, h, events[..m], i);
            if TornBy(s, route, h, events, m, i) then |held| < |arrived| else held == arrived
  {
    if m == 0 {
      assert events[..0] == [] && h + [] == h;
    } else {
      var n := m - 1;
      NotCopiedBefore(s, route, h, events, n, i);
      HeldUntilCopy(s, route, h, events, n, i);
      HeldStep(s, route, h, events, n, i);
      TornOneMore(s, route, h, events, n, i);
    }
  }

  lemma NotCopiedBefore(s: Scheme, route: string -> nat, h: seq<PacketInfo>, events: seq<Event>, n: nat, i: nat)
    requires n < |events| && i !in Run(s, route, h, events[..n + 1]).copies
    ensures i !in Run(s, route, h, events[..n]).copies
  {
    assert events[..n + 1][..n] == events[..n];
  }

  lemma TornOneMore(s: Scheme, route: string -> nat, h: seq<PacketInfo>, events: seq<Event>, n: nat, i: nat)
    ensures TornBy(s, route, h, events, n + 1, i) <==>
              TornBy(s, route, h, events, n, i) || Tears(s, route, h, events, n, i)
  {
  }

  lemma HeldStep(s: Scheme, route: string -> nat, h: seq<PacketInfo>, events: seq<Event>, n: nat, i: nat)
    requires n < |events|
    ensures var held, arrived := HeldBy(s, route, h, events[..n], i), ArrivedAt(s, route, h, events[..n], i);
            var more := if events[n].Arrive? && Goes(s, route, events[n].p, i) then [events[n].p] else [];
            && ArrivedAt(s, route, h, events[..n + 1], i) == arrived + more
            && HeldBy(s, route, h, events[..n + 1], i) == if events[n] == ResetOf(i) then [] else held + more
  {
    var was, e := Run(s, route, h, events[..n]), events[n];
    var before := h + Arrivals(events[..n]);
    assert events[..n + 1][..n] == events[..n];
    match e {
      case Arrive(p) =>
        assert h + Arrivals(events[..n + 1]) == before + [p];
        OwnAppend(s, route, before, p, i);
        OwnAppend(s, route, was.history, p, i);
      case CopyOf(_) =>
      case ResetOf(j) =>
        OwnOfWithout(s, route, was.history, j, i);
    }
  }

  /** A copy shows everything that had arrived in its shard exactly when no reset emptied the shard while it
      held something, between the call and the copy. */
  lemma {:induction false} CopyIsCompleteIff(s: Scheme, route: string -> nat, h: seq<PacketInfo>, events: seq<Event>,
                                             n: nat, i: nat)
    requires CopyAt(s, route, h, events, n, i) && Fits(h + Arrivals(events[..n]))
    ensures i in Run(s, route, h, events).copies
    ensures Run(s, route, h, events).copies[i]
            == ShardOf(Replay(s, h + Arrivals(events[..n])), route, i)
            <==> forall k: nat :: !Tears(s, route, h, events, k, i)
  {
    var was := Run(s, route, h, events[..n]);
    var all := h + Arrivals(events[..n]);
    assert events[..n + 1][..n] == events[..n];
    CopiesStay(s, route, h, events, n + 1, i);
    ShardIsOwn(s, route, was.history, i);
    ShardIsOwn(s, route, all, i);
    HeldUntilCopy(s, route, h, events, n, i);
    if exists k: nat :: Tears(s, route, h, events, k, i) {
      TornBeforeCopy(s, route, h, events, n, i);
      OwnIsPart(s, route, all, i);
      FewerPacketsShow(s, HeldBy(s, route, h, events[..n], i), Own(s, route, all, i));
    }
  }

  lemma TornBeforeCopy(s: Scheme, route: string -> nat, h: seq<PacketInfo>, events: seq<Event>, n: nat, i: nat)
    requires CopyAt(s, route, h, events, n, i)
    ensures forall k: nat :: Tears(s, route, h, events, k, i) ==> k < n
  {
    forall k: nat | Tears(s, route, h, events, k, i) ensures k < n {
      if k > n {
        assert events[..k][..n + 1] == events[..n + 1] && events[..n + 1][..n] == events[..n];
        CopiesStay(s, route, h, events[..k], n + 1, i);
      }
    }
  }

  /** Fewer packets give other records. */
  lemma {:induction false} FewerPacketsShow(s: Scheme, g: seq<PacketInfo>, h: seq<PacketInfo>)
    requires s.Known() && |g| < |h| && Fits(h)
    ensures Replay(s, g) != Replay(s, h)
  {
    ExactTotals(s, h);
    WholeAtMost(s, g);
  }

  /** r comes from an earlier or the same moment in the life of a flow as q. */
  predicate NotAfter(r: Record, q: Record) {
    r.fields == q.fields && r.startTime == q.startTime && r.packetCount <= q.packetCount && r.byteCount <= q.byteCount
  }

  /** No counter wraps around. */
  predicate Fits(h: seq<PacketInfo>) {
    |h| < TWO_64 && SizeSum(h) < TWO_64
  }

  lemma {:induction false} FlowIsPart(s: Scheme, h: seq<PacketInfo>, k: string)
    ensures |PacketsOf(s, h, k)| <= |h| && SizeSum(PacketsOf(s, h, k)) <= SizeSum(h)
  {
    if h != [] {
      FlowIsPart(s, h[..|h| - 1], k);
      SizeSumAppend(PacketsOf(s, h[..|h| - 1], k), h[|h| - 1]);
    }
  }

  lemma {:induction false} OneMorePacket(s: Scheme, h: seq<PacketInfo>, p: PacketInfo, k: string)
    requires Fits(h + [p]) && k in Replay(s, h)
    ensures k in Replay(s, h + [p]) && NotAfter(Replay(s, h)[k], Replay(s, h + [p])[k])
  {
    ReplayAppend(s, h, p);
    SizeSumAppend(h, p);
    CountersBelow(s, h, k);
    TouchGrows(s, Replay(s, h), p, k);
  }

  lemma {:induction false} CountersBelow(s: Scheme, h: seq<PacketInfo>, k: string)
    requires Fits(h) && k in Replay(s, h)
    ensures Replay(s, h)[k].packetCount <= |h| && Replay(s, h)[k].byteCount <= SizeSum(h)
  {
    RecordsAreSummaries(s, h, k);
    FlowIsPart(s, h, k);
    SummaryBelow(s, PacketsOf(s, h, k), |h|, SizeSum(h));
  }

  lemma {:induction false} SummaryBelow(s: Scheme, own: seq<PacketInfo>, packets: nat, bytes: nat)
    requires own != [] && |own| <= packets < TWO_64 && SizeSum(own) <= bytes < TWO_64
    ensures Summary(s, own).packetCount <= packets && Summary(s, own).byteCount <= bytes
  {
    SizesAreLengths(own);
  }

  lemma TouchGrows(s: Scheme, m: map<string, Record>, p: PacketInfo, k: string)
    requires k in m && m[k].packetCount + 1 < TWO_64 && m[k].byteCount + Size64(p) < TWO_64
    ensures k in Touch(s, m, p) && NotAfter(m[k], Touch(s, m, p)[k])
  {
  }

  lemma {:induction false} SizeSumOfPrefix(h: seq<PacketInfo>, t: nat)
    requires t <= |h|
    ensures SizeSum(h[..t]) <= SizeSum(h)
    decreases |h| - t
  {
    if t < |h| {
      SizeSumOfPrefix(h, t + 1);
      assert h[..t + 1][..t] == h[..t];
    } else {
      assert h[..t] == h;
    }
  }

  /** Without a reset a flow never disappears and its counters never go down. */
  lemma {:induction false} RecordsOnlyGrow(s: Scheme, h: seq<PacketInfo>, t: nat, u: nat, k: string)
    requires t <= u <= |h| && Fits(h) && k in Replay(s, h[..t])
    ensures k in Replay(s, h[..u]) && NotAfter(Replay(s, h[..t])[k], Replay(s, h[..u])[k])
    decreases u - t
  {
    if t < u {
      RecordsOnlyGrow(s, h, t, u - 1, k);
      assert h[..u] == h[..u - 1] + [h[u - 1]];
      SizeSumOfPrefix(h, u);
      OneMorePacket(s, h[..u - 1], h[u - 1], k);
    }
  }

  /** Everything in m is in n, no later. */
  ghost predicate Within(m: map<string, Record>, n: map<string, Record>) {
    forall k :: k in m ==> k in n && NotAfter(m[k], n[k])
  }

  // Totals below 2^64.

  lemma {:induction false} WholeAtMost(s: Scheme, h: seq<PacketInfo>)
    requires s.Known()
    ensures Whole(Replay(s, h), PACKET_COUNT) <= |h| && Whole(Replay(s, h), BYTE_COUNT) <= SizeSum(h)
  {
    if h != [] {
      var init, p := h[..|h| - 1], h[|h| - 1];
      WholeAtMost(s, init);
      assert h == init + [p];
      ReplayAppend(s, init, p);
      SizeSumAppend(init, p);
      TouchAddsAtMost(s, Replay(s, init), p);
    }
  }

  lemma TouchAddsAtMost(s: Scheme, m: map<string, Record>, p: PacketInfo)
    requires s.Known()
    ensures Whole(Touch(s, m, p), PACKET_COUNT) <= Whole(m, PACKET_COUNT) + 1
    ensures Whole(Touch(s, m, p), BYTE_COUNT) <= Whole(m, BYTE_COUNT) + Size64(p)
  {
    var k := s.KeyOf(p.fiveTuple);
    var r := Extend(m, k, s.FieldsOf(p.fiveTuple), p);
    assert Touch(s, m, p).Keys == m.Keys + {k};
    SumOfUpdate(m, k, r, PACKET_COUNT);
    SumOfUpdate(m, k, r, BYTE_COUNT);
  }

  /** While nothing wraps around, the totals are those of the traffic without any modulus. */
  lemma {:induction false} ExactTotals(s: Scheme, h: seq<PacketInfo>)
    requires s.Known() && Fits(h)
    ensures Whole(Replay(s, h), PACKET_COUNT) == |h| && Whole(Replay(s, h), BYTE_COUNT) == SizeSum(h)
  {
    WholeAtMost(s, h);
    TotalsOfKnown(s, h);
    SameBelow(Whole(Replay(s, h), PACKET_COUNT), |h|);
    SameBelow(Whole(Replay(s, h), BYTE_COUNT), SizeSum(h));
  }

  lemma SameBelow(x: nat, n: nat)
    requires x <= n < TWO_64 && x % TWO_64 == n % TWO_64
    ensures x == n
  {
  }

  // The whole snapshot.

  /** Shard i was copied after t packets, and nothing was missing. */
  predicate CopiedAt(s: Scheme, route: string -> nat, called: nat, all: seq<PacketInfo>,
                     copies: map<nat, map<string, Record>>, i: nat, t: nat)
  {
    called <= t <= |all| && i in copies && copies[i] == ShardOf(Replay(s, all[..t]), route, i)
  }

  ghost predicate Copied(s: Scheme, route: string -> nat, called: nat, all: seq<PacketInfo>,
                         copies: map<nat, map<string, Record>>, i: nat)
  {
    exists t: nat :: CopiedAt(s, route, called, all, copies, i, t)
  }

  ghost predicate AllCopied(s: Scheme, route: string -> nat, called: nat, all: seq<PacketInfo>,
                            copies: map<nat, map<string, Record>>, n: nat)
  {
    forall i: nat :: i < n ==> i in copies && Copied(s, route, called, all, copies, i)
  }

  /** No shard was emptied, while it held something, before it was copied. */
  ghost predicate Untorn(s: Scheme, route: string -> nat, h: seq<PacketInfo>, events: seq<Event>) {
    forall k: nat, i: nat :: !Tears(s, route, h, events, k, i)
  }

  lemma {:induction false} ArrivalsOfPrefix(events: seq<Event>, n: nat)
    requires n <= |events|
    ensures Arrivals(events[..n]) <= Arrivals(events)
    decreases |events|
  {
    if n < |events| {
      assert events[..|events| - 1][..n] == events[..n];
      ArrivalsOfPrefix(events[..|events| - 1], n);
    } else {
      assert events[..n] == events;
    }
  }

  lemma {:induction false} WhenCopied(s: Scheme, route: string -> nat, h: seq<PacketInfo>, events: seq<Event>, i: nat)
    returns (n: nat)
    requires i in Run(s, route, h, events).copies
    ensures CopyAt(s, route, h, events, n, i)
  {
    assert events != [];
    var init := events[..|events| - 1];
    if i in Run(s, route, h, init).copies {
      n := WhenCopied(s, route, h, init, i);
      assert init[..n] == events[..n];
    } else {
      n := |events| - 1;
    }
  }

  lemma UntornCopy(s: Scheme, route: string -> nat, h: seq<PacketInfo>, events: seq<Event>, i: nat) returns (t: nat)
    requires Untorn(s, route, h, events) && Fits(h + Arrivals(events))
    requires i in Run(s, route, h, events).copies
    ensures CopiedAt(s, route, |h|, h + Arrivals(events), Run(s, route, h, events).copies, i, t)
  {
    var all := h + Arrivals(events);
    var n := WhenCopied(s, route, h, events, i);
    ArrivalsOfPrefix(events, n);
    t := |h + Arrivals(events[..n])|;
    assert all[..t] == h + Arrivals(events[..n]);
    SizeSumOfPrefix(all, t);
    CopyIsCompleteIff(s, route, h, events, n, i);
  }

  /** The snapshot that a finished run of copies amounts to. */
  function Merged(copies: map<nat, map<string, Record>>, keys: set<string>, route: string -> nat): map<string, Record> {
    map k | k in keys && route(k) in copies && k in copies[route(k)] :: copies[route(k)][k]
  }

  /** The shards of the snapshot, in order. */
  function Shards(copies: map<nat, map<string, Record>>, n: nat): seq<map<string, Record>>
    requires forall i :: 0 <= i < n ==> i in copies
  {
    seq(n, i requires 0 <= i < n => copies[i])
  }

  lemma {:induction false} KeyBetween(s: Scheme, route: string -> nat, called: nat, all: seq<PacketInfo>,
                                      copies: map<nat, map<string, Record>>, k: string, t: nat)
    requires Fits(all) && called <= |all| && CopiedAt(s, route, called, all, copies, route(k), t)
    ensures k in Replay(s, all[..called]) ==>
              k in copies[route(k)] && NotAfter(Replay(s, all[..called])[k], copies[route(k)][k])
    ensures k in copies[route(k)] ==> k in Replay(s, all) && NotAfter(copies[route(k)][k], Replay(s, all)[k])
  {
    if k in Replay(s, all[..called]) {
      RecordsOnlyGrow(s, all, called, t, k);
    }
    if k in Replay(s, all[..t]) {
      RecordsOnlyGrow(s, all, t, |all|, k);
      assert all[..|all|] == all;
    }
  }

  lemma {:induction false} MergedSplits(s: Scheme, route: string -> nat, n: nat, called: nat, all: seq<PacketInfo>,
                                        copies: map<nat, map<string, Record>>)
    requires forall k :: route(k) < n
    requires Fits(all) && called <= |all| && AllCopied(s, route, called, all, copies, n)
    ensures Splits(Shards(copies, n), Merged(copies, Replay(s, all).Keys, route), route)
  {
    forall i, k | 0 <= i < n && k in Shards(copies, n)[i] ensures route(k) == i && k in Replay(s, all) {
      assert Copied(s, route, called, all, copies, i);
      var t: nat :| CopiedAt(s, route, called, all, copies, i, t);
      assert route(k) == i;
      KeyBetween(s, route, called, all, copies, k, t);
    }
  }

  lemma {:induction false} MergedBetween(s: Scheme, route: string -> nat, n: nat, called: nat, all: seq<PacketInfo>,
                                         copies: map<nat, map<string, Record>>)
    requires forall k :: route(k) < n
    requires Fits(all) && called <= |all| && AllCopied(s, route, called, all, copies, n)
    ensures var snapshot := Merged(copies, Replay(s, all).Keys, route);
            Within(Replay(s, all[..called]), snapshot) && Within(snapshot, Replay(s, all))
  {
    var h, m := all[..called], Replay(s, all);
    var snapshot := Merged(copies, m.Keys, route);
    forall k
      ensures k in Replay(s, h) ==> k in snapshot && NotAfter(Replay(s, h)[k], snapshot[k])
      ensures k in snapshot ==> k in m && NotAfter(snapshot[k], m[k])
    {
      assert Copied(s, route, called, all, copies, route(k));
      var t: nat :| CopiedAt(s, route, called, all, copies, route(k), t);
      KeyBetween(s, route, called, all, copies, k, t);
    }
  }

  /** However packets, copies and resets interleave, as long as no shard that holds something is emptied
      before its copy, every flow in the snapshot lies between what it was when the snapshot was asked for
      and that with everything that arrived until the snapshot returns, and no flow is missing. */
  lemma {:induction false} SnapshotBetween(s: Scheme, route: string -> nat, n: nat, h: seq<PacketInfo>,
                                           events: seq<Event>)
    requires (forall k :: route(k) < n) && Untorn(s, route, h, events) && Fits(h + Arrivals(events))
    requires forall i :: 0 <= i < n ==> i in Run(s, route, h, events).copies
    ensures var all, copies := h + Arrivals(events), Run(s, route, h, events).copies;
            var snapshot := Merged(copies, Replay(s, all).Keys, route);
            && Splits(Shards(copies, n), snapshot, route)
            && Within(Replay(s, h), snapshot) && Within(snapshot, Replay(s, all))
  {
    var all, copies := h + Arrivals(events), Run(s, route, h, events).copies;
    forall i: nat | i < n ensures Copied(s, route, |h|, all, copies, i) {
      var t := UntornCopy(s, route, h, events, i);
    }
    assert all[..|h|] == h;
    MergedSplits(s, route, n, |h|, all, copies);
    MergedBetween(s, route, n, |h|, all, copies);
  }

  lemma RunOn(s: Scheme, route: string -> nat, h: seq<PacketInfo>, events: seq<Event>, e: Event)
    ensures Run(s, route, h, events + [e]) == Step(s, route, Run(s, route, h, events), e)
  {
    assert (events + [e])[..|events|] == events;
  }

  lemma RunFour(s: Scheme, route: string -> nat, h: seq<PacketInfo>, a: Event, b: Event, c: Event, d: Event)
    ensures Run(s, route, h, [a, b, c, d]) ==
            Step(s, route, Step(s, route, Step(s, route, Step(s, route, State(h, map[]), a), b), c), d)
    ensures Run(s, route, h, [a, b]) == Step(s, route, Step(s, route, State(h, map[]), a), b)
  {
    assert [] + [a] == [a] && [a] + [b] == [a, b] && [a, b] + [c] == [a, b, c] && [a, b, c] + [d] == [a, b, c, d];
    RunOn(s, route, h, [], a);
    RunOn(s, route, h, [a], b);
    RunOn(s, route, h, [a, b], c);
    RunOn(s, route, h, [a, b, c], d);
  }

  /** Two packets whose flows are in shards 0 and 1. */
  predicate TwoShards(s: Scheme, route: string -> nat, p: PacketInfo, q: PacketInfo) {
    s.Known() && route(s.KeyOf(p.fiveTuple)) == 0 && route(s.KeyOf(q.fiveTuple)) == 1
  }

  lemma {:induction false} WithoutOne(s: Scheme, route: string -> nat, p: PacketInfo, i: nat)
    ensures Without(s, route, [p], i) == if Goes(s, route, p, i) then [] else [p]
    ensures Own(s, route, [p], i) == if Goes(s, route, p, i) then [p] else []
  {
    WithoutAppend(s, route, [], p, i);
    OwnAppend(s, route, [], p, i);
    assert [] + [p] == [p];
  }

  lemma {:induction false} WithoutFirst(s: Scheme, route: string -> nat, p: PacketInfo, q: PacketInfo)
    requires TwoShards(s, route, p, q)
    ensures Without(s, route, [p, q], 0) == [q]
  {
    WithoutOne(s, route, p, 0);
    WithoutAppend(s, route, [p], q, 0);
    assert [p] + [q] == [p, q] && [] + [q] == [q];
  }

  lemma {:induction false} KeysOfTwo(s: Scheme, p: PacketInfo, q: PacketInfo)
    requires s.Known()
    ensures s.KeyOf(p.fiveTuple) in Replay(s, [p, q]) && s.KeyOf(q.fiveTuple) in Replay(s, [p, q])
  {
    assert [] + [p] == [p] && [p] + [q] == [p, q];
    ReplayAppend(s, [], p);
    ReplayAppend(s, [p], q);
  }

  lemma {:induction false} ShardsOfTwo(s: Scheme, route: string -> nat, p: PacketInfo, q: PacketInfo)
    requires TwoShards(s, route, p, q)
    ensures Without(s, route, [p, q], 0) == [q] && Without(s, route, [q], 1) == [] && Own(s, route, [q], 1) == [q]
    ensures s.KeyOf(p.fiveTuple) in ShardOf(Replay(s, [p, q]), route, 0)
    ensures s.KeyOf(q.fiveTuple) in ShardOf(Replay(s, [p, q]), route, 1)
    ensures forall i :: ShardOf(Replay(s, []), route, i) == map[]
  {
    WithoutFirst(s, route, p, q);
    WithoutOne(s, route, q, 1);
    KeysOfTwo(s, p, q);
  }

  lemma {:induction false} WithoutAppend(s: Scheme, route: string -> nat, h: seq<PacketInfo>, p: PacketInfo, i: nat)
    ensures Without(s, route, h + [p], i) ==
            if Goes(s, route, p, i) then Without(s, route, h, i) else Without(s, route, h, i) + [p]
  {
    assert (h + [p])[..|h|] == h;
  }

  /** Two packets in two shards; then copy of the first shard, reset of both, copy of the second. The snapshot
      has the first packet's flow and not the second's. */
  lemma TornSnapshot(s: Scheme, route: string -> nat, p: PacketInfo, q: PacketInfo)
    requires TwoShards(s, route, p, q)
    ensures var events := [CopyOf(0), ResetOf(0), ResetOf(1), CopyOf(1)];
            var copies := Run(s, route, [p, q], events).copies;
            && copies.Keys == {0, 1} && s.KeyOf(p.fiveTuple) in copies[0] && copies[1] == map[]
            && Tears(s, route, [p, q], events, 2, 1)
  {
    ShardsOfTwo(s, route, p, q);
    RunFour(s, route, [p, q], CopyOf(0), ResetOf(0), ResetOf(1), CopyOf(1));
    assert [CopyOf(0), ResetOf(0), ResetOf(1), CopyOf(1)][..2] == [CopyOf(0), ResetOf(0)];
  }

  /** Had the reset come as a whole before the snapshot or after it, both would be missing or both there. */
  lemma WholeSnapshots(s: Scheme, route: string -> nat, p: PacketInfo, q: PacketInfo)
    requires TwoShards(s, route, p, q)
    ensures Run(s, route, [p, q], [ResetOf(0), ResetOf(1), CopyOf(0), CopyOf(1)]).copies == map[0 := map[], 1 := map[]]
    ensures var copies := Run(s, route, [p, q], [CopyOf(0), CopyOf(1), ResetOf(0), ResetOf(1)]).copies;
            && copies.Keys == {0, 1}
            && s.KeyOf(p.fiveTuple) in copies[0] && s.KeyOf(q.fiveTuple) in copies[1]
  {
    ShardsOfTwo(s, route, p, q);
    RunFour(s, route, [p, q], ResetOf(0), ResetOf(1), CopyOf(0), CopyOf(1));
    RunFour(s, route, [p, q], CopyOf(0), CopyOf(1), ResetOf(0), ResetOf(1));
  }

  lemma {:induction false} SumGrows(m: map<string, Record>, n: map<string, Record>, keys: set<string>,
                                    column: Record -> nat)
    requires keys <= m.Keys && keys <= n.Keys && forall k :: k in keys ==> column(m[k]) <= column(n[k])
    ensures Sum(m, keys, column) <= Sum(n, keys, column)
    decreases keys
  {
    if keys != {} {
      var k :| k in keys;
      SumTakesOut(m, keys, column, k);
      SumTakesOut(n, keys, column, k);
      SumGrows(m, n, keys - {k}, column);
    }
  }

  lemma WholeGrows(m: map<string, Record>, n: map<string, Record>, column: Record -> nat)
    requires forall k :: k in m ==> k in n && column(m[k]) <= column(n[k])
    ensures Whole(m, column) <= Whole(n, column)
  {
    assert m.Keys <= n.Keys;
    assert n.Keys == m.Keys + (n.Keys - m.Keys);
    SumOfUnion(n, m.Keys, n.Keys - m.Keys, column);
    SumGrows(m, n, m.Keys, column);
  }

  /** So do the totals. */
  lemma {:induction false} TotalsBetween(s: Scheme, route: string -> nat, n: nat, h: seq<PacketInfo>,
                                         events: seq<Event>)
    requires (forall k :: route(k) < n) && Untorn(s, route, h, events) && Fits(h + Arrivals(events))
    requires forall i :: 0 <= i < n ==> i in Run(s, route, h, events).copies
    ensures var all, shards := h + Arrivals(events), Shards(Run(s, route, h, events).copies, n);
            && Whole(Replay(s, h), PACKET_COUNT) <= TableSum(shards, PACKET_COUNT)
               <= Whole(Replay(s, all), PACKET_COUNT)
            && Whole(Replay(s, h), BYTE_COUNT) <= TableSum(shards, BYTE_COUNT) <= Whole(Replay(s, all), BYTE_COUNT)
            && |Replay(s, h)| <= TableSize(shards) <= |Replay(s, all)|
  {
    var copies, m := Run(s, route, h, events).copies, Replay(s, h + Arrivals(events));
    var snapshot := Merged(copies, m.Keys, route);
    SnapshotBetween(s, route, n, h, events);
    SplitTotals(Shards(copies, n), snapshot, route, PACKET_COUNT);
    SplitTotals(Shards(copies, n), snapshot, route, BYTE_COUNT);
    WithinTotals(Replay(s, h), snapshot);
    WithinTotals(snapshot, m);
  }

  lemma WithinTotals(m: map<string, Record>, n: map<string, Record>)
    requires Within(m, n)
    ensures Whole(m, PACKET_COUNT) <= Whole(n, PACKET_COUNT) && Whole(m, BYTE_COUNT) <= Whole(n, BYTE_COUNT)
    ensures |m| <= |n|
  {
    WholeGrows(m, n, PACKET_COUNT);
    WholeGrows(m, n, BYTE_COUNT);
    SubsetSize(m.Keys, n.Keys);
    assert |m| == |m.Keys| && |n| == |n.Keys|;
  }
}
