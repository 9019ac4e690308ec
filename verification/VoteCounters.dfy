/** The two candidate-vote counters of one sketch bucket (count_min.go): their update rules as
    pure functions, the packets routed to a bucket, and what a counter says about those packets
    after any sequential run. */
module VoteCounters {
  import opened Words

  /** A fingerprint with its counter: PacketCount{FP, C} or PacketSize{FP, S}. */
  datatype Counter = Counter(fp: Key, votes: uint32)

  datatype Packet = Packet(flow: Key, size: uint32)

  /** Byte counter: a heavier packet of another flow replaces the candidate and stores its whole size. */
  function SizeUpdate(c: Counter, flow: Key, size: uint32): Counter {
    if c.votes == 0 then Counter(CopyInto(c.fp, flow), size)
    else if c.fp == flow then Counter(c.fp, Add32(c.votes, size))
    else if size > c.votes then Counter(CopyInto(c.fp, flow), size)
    else Counter(c.fp, c.votes - size)
  }

  /** Packet counter: a vote that brings the counter to 0 also overwrites the fingerprint. */
  function CountUpdate(c: Counter, flow: Key): Counter {
    if c.votes == 0 then Counter(CopyInto(c.fp, flow), 1)
    else if c.fp == flow then Counter(c.fp, Add32(c.votes, 1))
    else if c.votes == 1 then Counter(CopyInto(c.fp, flow), 0)
    else Counter(c.fp, c.votes - 1)
  }

  /** Whenever a packet of another flow takes a counter over or brings a packet counter to 0, the fingerprint
      becomes that flow's. */
  lemma TakeoverCopiesFingerprint(c: Counter, flow: Key, size: uint32)
    requires |c.fp| == |flow| && c.fp != flow
    ensures c.votes <= 1 ==> CountUpdate(c, flow) == Counter(flow, 1 - c.votes)
    ensures c.votes < size ==> SizeUpdate(c, flow, size) == Counter(flow, size)
    ensures c.votes > 1 ==> CountUpdate(c, flow).fp == c.fp
    ensures c.votes > 0 && c.votes >= size ==> SizeUpdate(c, flow, size).fp == c.fp
  {
  }

  /** The byte counter after the packets h, starting from a zeroed fingerprint of fs bytes. */
  function SizeReplay(h: seq<Packet>, fs: nat): (c: Counter)
    ensures |c.fp| == fs
  {
    if h == [] then Counter(Zeros(fs), 0)
    else
      var p := h[|h| - 1];
      SizeUpdate(SizeReplay(h[..|h| - 1], fs), p.flow, p.size)
  }

  function CountReplay(h: seq<Packet>, fs: nat): (c: Counter)
    ensures |c.fp| == fs
  {
    if h == [] then Counter(Zeros(fs), 0)
    else CountUpdate(CountReplay(h[..|h| - 1], fs), h[|h| - 1].flow)
  }

  // Ground truth about a run.

  function Bytes(h: seq<Packet>): nat {
    if h == [] then 0 else Bytes(h[..|h| - 1]) + h[|h| - 1].size
  }

  function BytesOf(h: seq<Packet>, f: Key): nat {
    if h == [] then 0
    else BytesOf(h[..|h| - 1], f) + (if h[|h| - 1].flow == f then h[|h| - 1].size else 0)
  }

  function PacketsOf(h: seq<Packet>, f: Key): nat {
    if h == [] then 0
    else PacketsOf(h[..|h| - 1], f) + (if h[|h| - 1].flow == f then 1 else 0)
  }

  /** Every flow key has the length of the fingerprint buffers. */
  ghost predicate Uniform(h: seq<Packet>, fs: nat) {
    forall k :: 0 <= k < |h| ==> |h[k].flow| == fs
  }

  /** One more packet: the replayed counters and the truth both take one step. */
  lemma {:induction false} Append(h: seq<Packet>, fs: nat, p: Packet, x: Key)
    ensures SizeReplay(h + [p], fs) == SizeUpdate(SizeReplay(h, fs), p.flow, p.size)
    ensures CountReplay(h + [p], fs) == CountUpdate(CountReplay(h, fs), p.flow)
    ensures Bytes(h + [p]) == Bytes(h) + p.size
    ensures BytesOf(h + [p], x) == BytesOf(h, x) + (if p.flow == x then p.size else 0)
    ensures PacketsOf(h + [p], x) == PacketsOf(h, x) + (if p.flow == x then 1 else 0)
  {
    assert (h + [p])[..|h|] == h;
  }

  /** The byte counter never claims more than its candidate sent, wraparound or not. */
  lemma {:induction false} SizeNeverOverestimates(h: seq<Packet>, fs: nat)
    requires Uniform(h, fs)
    ensures SizeReplay(h, fs).votes <= BytesOf(h, SizeReplay(h, fs).fp)
  {
    if h != [] {
      SizeNeverOverestimates(h[..|h| - 1], fs);
    }
  }

  lemma {:induction false} CountNeverOverestimates(h: seq<Packet>, fs: nat)
    requires Uniform(h, fs)
    ensures CountReplay(h, fs).votes <= PacketsOf(h, CountReplay(h, fs).fp)
  {
    if h != [] {
      CountNeverOverestimates(h[..|h| - 1], fs);
    }
  }

  /** Byte votes, for every flow x: with b bytes of x among B in the bucket,
      b <= 2 * (B - b) + S while x is the candidate, and b + S <= 2 * (B - b) while it is not. */
  lemma {:induction false} SizeVote(h: seq<Packet>, fs: nat, x: Key)
    requires Uniform(h, fs) && Bytes(h) < TWO_32
    ensures BytesOf(h, x) <= Bytes(h)
    ensures var c := SizeReplay(h, fs);
            if c.fp == x then BytesOf(h, x) <= 2 * (Bytes(h) - BytesOf(h, x)) + c.votes
            else BytesOf(h, x) + c.votes <= 2 * (Bytes(h) - BytesOf(h, x))
    ensures SizeReplay(h, fs).votes <= Bytes(h)
  {
    if h != [] {
      var g, p := h[..|h| - 1], h[|h| - 1];
      SizeVote(g, fs, x);
      var c := SizeReplay(g, fs);
      assert SizeReplay(h, fs) == SizeUpdate(c, p.flow, p.size);
      assert CopyInto(c.fp, p.flow) == p.flow;
    }
  }

  /** Each packet moves the packet counter by exactly one. */
  lemma {:induction false} CountParity(h: seq<Packet>, fs: nat)
    requires |h| < TWO_32
    ensures CountReplay(h, fs).votes <= |h|
    ensures CountReplay(h, fs).votes % 2 == |h| % 2
  {
    if h != [] {
      CountParity(h[..|h| - 1], fs);
    }
  }

  /** Packet votes, for every flow x: with n packets of x among N in the bucket,
      n <= (N - n) + C while x is the candidate, and n + C <= N - n while it is not. */
  lemma {:induction false} CountVote(h: seq<Packet>, fs: nat, x: Key)
    requires Uniform(h, fs) && |h| < TWO_32
    ensures PacketsOf(h, x) <= |h|
    ensures var c := CountReplay(h, fs);
            if c.fp == x then PacketsOf(h, x) <= |h| - PacketsOf(h, x) + c.votes
            else PacketsOf(h, x) + c.votes <= |h| - PacketsOf(h, x)
  {
    if h != [] {
      var g, p := h[..|h| - 1], h[|h| - 1];
      CountParity(g, fs);
      CountVote(g, fs, x);
      var c := CountReplay(g, fs);
      assert CountReplay(h, fs) == CountUpdate(c, p.flow);
      assert CopyInto(c.fp, p.flow) == p.flow;
    }
  }

  /** A flow with more than two thirds of the bucket's bytes is the byte candidate. */
  lemma {:induction false} TwoThirdsOwnTheBucket(h: seq<Packet>, fs: nat, x: Key)
    requires Uniform(h, fs) && Bytes(h) < TWO_32
    requires 3 * BytesOf(h, x) > 2 * Bytes(h)
    ensures SizeReplay(h, fs).fp == x
  {
    SizeVote(h, fs, x);
  }

  /** x, then one byte more of y, then x again: y keeps the bucket with a share of barely a third. */
  lemma OvertakenBucket(a: uint32, fs: nat, x: Key, y: Key) returns (h: seq<Packet>)
    requires 0 < a && 3 * a + 1 < TWO_32
    requires |x| == |y| == fs && x != y
    ensures Uniform(h, fs)
    ensures BytesOf(h, x) == 2 * a && Bytes(h) == 3 * a + 1
    ensures SizeReplay(h, fs) == Counter(y, 1)
  {
    var h1 := [] + [Packet(x, a)];
    var h2 := h1 + [Packet(y, a + 1)];
    h := h2 + [Packet(x, a)];
    Append([], fs, Packet(x, a), x);
    Append(h1, fs, Packet(y, a + 1), x);
    Append(h2, fs, Packet(x, a), x);
    assert SizeReplay(h1, fs) == Counter(x, a);
    assert SizeReplay(h2, fs) == Counter(y, a + 1);
  }

  lemma Product(a: nat, b: nat)
    ensures 0 <= a * b
  {
  }

  lemma ShareBelow(p: nat, q: nat, a: nat)
    requires 3 * p < 2 * q && a == p + 1
    ensures q * (2 * a) > p * (3 * a + 1)
  {
    var gap := 2 * q - (3 * p + 1);
    Product(gap, a);
    calc {
      q * (2 * a);
      (3 * p + 1 + gap) * a;
      p * (3 * a) + a + gap * a;
    }
    assert p * (3 * a + 1) == p * (3 * a) + p;
  }

  /** Two thirds cannot be lowered: for every share p/q below 2/3 there is a run in which x sends
      more than p/q of the bytes and another flow is the candidate. */
  lemma TwoThirdsIsTight(p: nat, q: nat, fs: nat, x: Key, y: Key) returns (h: seq<Packet>)
    requires 3 * p < 2 * q && q < 0x1000_0000
    requires |x| == |y| == fs && x != y
    ensures Uniform(h, fs) && Bytes(h) < TWO_32
    ensures q * BytesOf(h, x) > p * Bytes(h)
    ensures SizeReplay(h, fs).fp == y
  {
    var a := p + 1;
    h := OvertakenBucket(a, fs, x, y);
    ShareBelow(p, q, a);
  }

  // Exact answers for one flow, for two packets and for two flows.

  ghost predicate OnlyOf(h: seq<Packet>, flows: set<Key>) {
    forall p :: p in h ==> p.flow in flows
  }

  lemma OnlyOfInit(h: seq<Packet>, flows: set<Key>)
    requires h != [] && OnlyOf(h, flows)
    ensures OnlyOf(h[..|h| - 1], flows) && h[|h| - 1].flow in flows
  {
    assert h[|h| - 1] in h;
    assert forall p :: p in h[..|h| - 1] ==> p in h;
  }

  /** A flow that has a bucket to itself is counted exactly, modulo 2^32. */
  lemma {:induction false} OneFlowIsCounted(h: seq<Packet>, fs: nat, x: Key)
    requires |x| == fs && h != [] && OnlyOf(h, {x})
    ensures SizeReplay(h, fs) == Counter(x, Bytes(h) % TWO_32)
    ensures CountReplay(h, fs) == Counter(x, |h| % TWO_32)
  {
    OnlyOfInit(h, {x});
    if |h| > 1 {
      OneFlowIsCounted(h[..|h| - 1], fs, x);
      WrapsOn(Bytes(h[..|h| - 1]), h[|h| - 1].size);
      WrapsOn(|h| - 1, 1);
    } else {
      assert h[..0] == [];
    }
  }

  lemma WrapsOn(a: nat, b: uint32)
    ensures Add32(a % TWO_32, b) == (a + b) % TWO_32
    ensures a % TWO_32 == 0 ==> b == (a + b) % TWO_32
  {
  }

  /** x, then y: the heavier one has the bucket, x also if they are equally heavy; y stays with its whole
      size, x with what is left. */
  lemma {:induction false} TwoPackets(fs: nat, x: Key, y: Key, a: uint32, b: uint32)
    requires |x| == |y| == fs && x != y
    ensures SizeReplay([Packet(x, a), Packet(y, b)], fs) ==
            if a == 0 || b > a then Counter(y, b) else Counter(x, a - b)
  {
    var one := [Packet(x, a)];
    assert [] + one == one && one + [Packet(y, b)] == [Packet(x, a), Packet(y, b)];
    Append([], fs, Packet(x, a), x);
    Append(one, fs, Packet(y, b), x);
  }

  /** Between two flows the packet counter is the lead of the one that is ahead. */
  lemma {:induction false} TwoFlowsLead(h: seq<Packet>, fs: nat, x: Key, y: Key)
    requires |x| == |y| == fs && x != y && OnlyOf(h, {x, y}) && |h| < TWO_32
    ensures PacketsOf(h, x) + PacketsOf(h, y) == |h|
    ensures var c := CountReplay(h, fs);
            if PacketsOf(h, x) > PacketsOf(h, y) then c == Counter(x, PacketsOf(h, x) - PacketsOf(h, y))
            else if PacketsOf(h, y) > PacketsOf(h, x) then c == Counter(y, PacketsOf(h, y) - PacketsOf(h, x))
            else c.votes == 0
  {
    if h != [] {
      OnlyOfInit(h, {x, y});
      TwoFlowsLead(h[..|h| - 1], fs, x, y);
    }
  }

  // Routing: the sub-run of the packets a row sends to one column.

  /** The packets of h whose flow the row's column function maps to column j. */
  function Routed(h: seq<Packet>, column: Key -> uint32, j: int): seq<Packet> {
    if h == [] then []
    else
      var p := h[|h| - 1];
      var rest := Routed(h[..|h| - 1], column, j);
      if column(p.flow) == j then rest + [p] else rest
  }

  /** Routing keeps every packet of the flows that belong to the column and loses no order. */
  lemma {:induction false} RoutedKeepsFlow(h: seq<Packet>, column: Key -> uint32, f: Key, fs: nat)
    ensures var r := Routed(h, column, column(f));
            BytesOf(r, f) == BytesOf(h, f) && PacketsOf(r, f) == PacketsOf(h, f) && |r| <= |h|
    ensures Uniform(h, fs) ==> Uniform(Routed(h, column, column(f)), fs)
  {
    if h != [] {
      var g := h[..|h| - 1];
      RoutedKeepsFlow(g, column, f, fs);
      var p := h[|h| - 1];
      assert (Routed(g, column, column(f)) + [p])[..|Routed(g, column, column(f))|] == Routed(g, column, column(f));
    }
  }
}
