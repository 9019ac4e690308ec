/** A sketch task with a CountMin behind it (sketch/task.go): what an estimate says about the packets
    processed, in terms of the configured flow fields. */
module SketchTask {
  import opened Words
  import opened Packets
  import opened FlowKey
  import Votes = VoteCounters
  import CountMinSketch

  predicate Agree(fields: seq<Field>, ft: FiveTuple, gt: FiveTuple) {
    forall f :: f in fields ==> Selected(f, ft) == Selected(f, gt)
  }

  /** The packets that agree with ft on the fields. */
  function Matching(fields: seq<Field>, ps: seq<PacketInfo>, ft: FiveTuple): seq<PacketInfo> {
    if ps == [] then []
    else
      var p := ps[|ps| - 1];
      var rest := Matching(fields, ps[..|ps| - 1], ft);
      if Agree(fields, p.fiveTuple, ft) then rest + [p] else rest
  }

  /** uint32(length). */
  function Size32(p: PacketInfo): uint32 {
    p.length % TWO_32
  }

  function SizeSum(ps: seq<PacketInfo>): nat {
    if ps == [] then 0 else SizeSum(ps[..|ps| - 1]) + Size32(ps[|ps| - 1])
  }

  /** No length is cut by the conversion. */
  predicate Short(ps: seq<PacketInfo>) {
    forall p :: p in ps ==> 0 <= p.length < TWO_32
  }

  lemma {:induction false} SizesAreLengths(ps: seq<PacketInfo>)
    ensures SizeSum(ps) % TWO_32 == Lengths(ps) % TWO_32
    ensures Short(ps) ==> SizeSum(ps) == Lengths(ps)
  {
    if ps != [] {
      var init, p := ps[..|ps| - 1], ps[|ps| - 1];
      SizesAreLengths(init);
      SumsAgree(SizeSum(init), Lengths(init), p.length);
      assert Short(ps) ==> Short(init) && 0 <= p.length < TWO_32;
    }
  }

  lemma SumsAgree(a: nat, b: int, x: int)
    requires a % TWO_32 == b % TWO_32
    ensures (a + x % TWO_32) % TWO_32 == (b + x) % TWO_32
  {
  }

  lemma {:induction false} MatchingIsPart(fields: seq<Field>, ps: seq<PacketInfo>, ft: FiveTuple)
    ensures forall p :: p in Matching(fields, ps, ft) ==> p in ps
  {
    if ps != [] {
      MatchingIsPart(fields, ps[..|ps| - 1], ft);
    }
  }

  /** What the sketch is given. */
  function Keyed(fields: seq<Field>, ps: seq<PacketInfo>): (h: seq<Votes.Packet>)
    ensures |h| == |ps|
  {
    if ps == [] then []
    else
      var p := ps[|ps| - 1];
      Keyed(fields, ps[..|ps| - 1]) + [Votes.Packet(Layout(fields, p.fiveTuple), Size32(p))]
  }

  predicate AllFull(fields: seq<Field>, ps: seq<PacketInfo>) {
    forall p :: p in ps ==> Full(fields, p.fiveTuple)
  }

  /** The sketch's view of a flow is the packets that agree with it on the flow fields. */
  lemma {:induction false} KeyedTotals(fields: seq<Field>, ps: seq<PacketInfo>, ft: FiveTuple)
    requires Full(fields, ft) && AllFull(fields, ps)
    ensures Votes.BytesOf(Keyed(fields, ps), Layout(fields, ft)) == SizeSum(Matching(fields, ps, ft))
    ensures Votes.PacketsOf(Keyed(fields, ps), Layout(fields, ft)) == |Matching(fields, ps, ft)|
  {
    if ps != [] {
      var init, p := ps[..|ps| - 1], ps[|ps| - 1];
      KeyedTotals(fields, init, ft);
      LayoutInjective(fields, p.fiveTuple, ft);
      var h, x := Keyed(fields, init), Votes.Packet(Layout(fields, p.fiveTuple), Size32(p));
      assert (h + [x])[..|h|] == h;
      var m := Matching(fields, init, ft);
      assert (m + [p])[..|m|] == m;
    }
  }

  lemma {:induction false} KeyedUniform(fields: seq<Field>, ps: seq<PacketInfo>)
    requires AllFull(fields, ps)
    ensures Votes.Uniform(Keyed(fields, ps), Total(fields))
  {
    if ps != [] {
      var init, p := ps[..|ps| - 1], ps[|ps| - 1];
      KeyedUniform(fields, init);
      DecodedOfLayout(fields, p.fiveTuple, k => "");
    }
  }

  class Task {
    const flowFields: seq<Field>
    const elementFields: seq<Field>
    const sketch: CountMinSketch.CountMin
    /** The packets processed since construction or the last Reset. */
    ghost var packets: seq<PacketInfo>

    ghost predicate Valid()
      reads this`packets, sketch, sketch.table
    {
      && sketch.Valid() && sketch.fs == Total(flowFields)
      && AllFull(flowFields, packets) && sketch.history == Keyed(flowFields, packets)
    }

    constructor (flowFields: seq<Field>, elementFields: seq<Field>, hash: (Key, uint32) -> uint32, width: uint32,
                 depth: uint32, sizeThreshold: uint32, countThreshold: uint32, random: nat -> uint32)
      requires Total(flowFields) <= MAX_FIELD_SIZE && Total(elementFields) <= MAX_FIELD_SIZE
      ensures Valid() && packets == [] && fresh(sketch) && fresh(sketch.table)
      ensures this.flowFields == flowFields && this.elementFields == elementFields
    {
      this.flowFields, this.elementFields := flowFields, elementFields;
      sketch := new CountMinSketch.CountMin(hash, width, depth, sizeThreshold, countThreshold,
                                            Total(flowFields), random);
      packets := [];
    }

    /** flow and elem are the pooled buffers, with whatever they held. */
    method ProcessPacket(p: PacketInfo, flow: array<bv8>, elem: array<bv8>)
      requires Valid() && Full(flowFields, p.fiveTuple)
      requires flow != elem && flow.Length == Total(flowFields) && elem.Length == Total(elementFields)
      modifies this`packets, sketch, sketch.table, flow, elem
      ensures Valid() && packets == old(packets) + [p]
    {
      GenerateFlowAndElem(flow, elem, flowFields, elementFields, p.fiveTuple);
      sketch.Insert(flow[..], elem[..], Size32(p));
      ghost var ps := packets;
      packets := packets + [p];
      assert packets[..|ps|] == ps;
    }

    /** The packets whose key has the digest of a flow in row i, modulo the width, whatever their fields. */
    ghost function Colliding(ps: seq<PacketInfo>, i: nat, flow: Key): seq<PacketInfo>
      requires sketch.w > 0 && i < |sketch.seed|
    {
      if ps == [] then []
      else
        var p := ps[|ps| - 1];
        var rest := Colliding(ps[..|ps| - 1], i, flow);
        var seed, w := sketch.seed[i], sketch.w;
        var key := Layout(flowFields, p.fiveTuple);
        if sketch.hash(key, seed) % w == sketch.hash(flow, seed) % w then rest + [p] else rest
    }

    lemma {:induction false} SharingIsColliding(ps: seq<PacketInfo>, i: nat, flow: Key)
      requires sketch.w > 0 && i < |sketch.seed|
      ensures Votes.Bytes(sketch.Sharing(Keyed(flowFields, ps), i, flow)) == SizeSum(Colliding(ps, i, flow))
      ensures |sketch.Sharing(Keyed(flowFields, ps), i, flow)| == |Colliding(ps, i, flow)|
      ensures forall p :: p in Colliding(ps, i, flow) ==> p in ps
    {
      if ps != [] {
        var init, p := ps[..|ps| - 1], ps[|ps| - 1];
        SharingIsColliding(init, i, flow);
        var h, x := Keyed(flowFields, init), Votes.Packet(Layout(flowFields, p.fiveTuple), Size32(p));
        assert (h + [x])[..|h|] == h;
        var m, c := sketch.Sharing(h, i, flow), Colliding(init, i, flow);
        assert (m + [x])[..|m|] == m && (c + [p])[..|c|] == c;
      }
    }

    /** An estimate never exceeds what the packets that agree with ft on the flow fields add up to, and in
        every row it is at least their excess over the rest of the bucket. Lengths that fit 32 bits count
        as they are. */
    method Query(flow: Key, ghost ft: FiveTuple) returns (r: uint64)
      requires Valid() && Full(flowFields, ft) && flow == Layout(flowFields, ft)
      ensures r % TWO_32 <= SizeSum(Matching(flowFields, packets, ft))
      ensures r / TWO_32 <= |Matching(flowFields, packets, ft)|
      ensures forall i :: 0 <= i < sketch.d && SizeSum(Colliding(packets, i, flow)) < TWO_32 ==>
                3 * SizeSum(Matching(flowFields, packets, ft)) - 2 * SizeSum(Colliding(packets, i, flow)) <= r % TWO_32
      ensures |packets| < TWO_32 ==> forall i :: 0 <= i < sketch.d ==>
                2 * |Matching(flowFields, packets, ft)| - |Colliding(packets, i, flow)| <= r / TWO_32
      ensures Short(packets) ==>
                && r % TWO_32 <= Lengths(Matching(flowFields, packets, ft))
                && forall i :: 0 <= i < sketch.d && Lengths(Colliding(packets, i, flow)) < TWO_32 ==>
                     3 * Lengths(Matching(flowFields, packets, ft)) - 2 * Lengths(Colliding(packets, i, flow))
                     <= r % TWO_32
    {
      r := sketch.Query(flow);
      KeyedTotals(flowFields, packets, ft);
      KeyedUniform(flowFields, packets);
      sketch.EstimateBounds(flow);
      ghost var bytes, count := SizeSum(Matching(flowFields, packets, ft)), |Matching(flowFields, packets, ft)|;
      forall i | 0 <= i < sketch.d && SizeSum(Colliding(packets, i, flow)) < TWO_32
        ensures 3 * bytes - 2 * SizeSum(Colliding(packets, i, flow)) <= r % TWO_32
      {
        SharingIsColliding(packets, i, flow);
        assert sketch.NoByteWrap(flow, i);
        assert sketch.ByteFloor(flow, i) == 3 * bytes - 2 * SizeSum(Colliding(packets, i, flow));
      }
      if |packets| < TWO_32 {
        forall i | 0 <= i < sketch.d ensures 2 * count - |Colliding(packets, i, flow)| <= r / TWO_32 {
          SharingIsColliding(packets, i, flow);
          assert sketch.PacketFloor(flow, i) == 2 * count - |Colliding(packets, i, flow)|;
        }
      }
      PlainSums(flow, ft);
    }

    lemma PlainSums(flow: Key, ft: FiveTuple)
      requires sketch.Valid()
      ensures Short(packets) ==>
                SizeSum(Matching(flowFields, packets, ft)) == Lengths(Matching(flowFields, packets, ft))
      ensures Short(packets) ==> forall i :: 0 <= i < sketch.d ==>
                SizeSum(Colliding(packets, i, flow)) == Lengths(Colliding(packets, i, flow))
    {
      MatchingIsPart(flowFields, packets, ft);
      SizesAreLengths(Matching(flowFields, packets, ft));
      if Short(packets) {
        forall i | 0 <= i < sketch.d
          ensures SizeSum(Colliding(packets, i, flow)) == Lengths(Colliding(packets, i, flow))
        {
          SharingIsColliding(packets, i, flow);
          SizesAreLengths(Colliding(packets, i, flow));
        }
      }
    }
  }
}
