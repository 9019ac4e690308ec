/** What an exact task is for (exact/task.go), as one plain map: per key, the packets and bytes seen and
    the first and last time. */
module FlowTotals {
  import opened Words
  import opened Text
  import opened Packets
  import opened FlowKey

  /** A field as the flow's Fields map holds it. */
  datatype Shown = Label(text: string) | Amount(n: nat)

  /** The configured key fields and net.IP.String. */
  datatype Scheme = Scheme(fields: seq<Field>, ipText: Key -> string) {
    predicate Known() {
      forall f :: f in fields ==> !f.Unknown?
    }

    /** No address text contains the separator of keys. */
    ghost predicate Ok() {
      forall ip :: '-' !in ipText(ip)
    }

    /** The key of a packet, if every field name is known. */
    function KeyOf(ft: FiveTuple): string {
      Join(Texts(fields, ft, ipText), '-')
    }

    function Show(f: Field, ft: FiveTuple): Shown {
      match Selected(f, ft)
      case Address(ip) => Label(ipText(ip))
      case Number(n) => Amount(n)
      case NoField => Amount(0)
    }

    /** A task with an unknown field name drops every packet. */
    function Accepted(h: seq<PacketInfo>): seq<PacketInfo> {
      if Known() then h else []
    }

    /** The keys of the packets. */
    function Flows(h: seq<PacketInfo>): set<string> {
      set p | p in Accepted(h) :: KeyOf(p.fiveTuple)
    }

    function FieldsOf(ft: FiveTuple): map<Field, Shown> {
      map f | f in fields :: Show(f, ft)
    }
  }

  datatype Record = Record(fields: map<Field, Shown>, startTime: int, endTime: int,
                           packetCount: uint64, byteCount: uint64)

  /** uint64(length). */
  function Size64(p: PacketInfo): uint64 {
    p.length % TWO_64
  }

  /** The record of a flow after one more packet. */
  function Extend(m: map<string, Record>, k: string, fields: map<Field, Shown>, p: PacketInfo): Record {
    if k in m then
      m[k].(endTime := p.timestamp, packetCount := (m[k].packetCount + 1) % TWO_64,
            byteCount := (m[k].byteCount + Size64(p)) % TWO_64)
    else Record(fields, p.timestamp, p.timestamp, 1, Size64(p))
  }

  /** Processing one packet; a task with an unknown field name drops it. */
  function Touch(s: Scheme, m: map<string, Record>, p: PacketInfo): map<string, Record> {
    if s.Known() then
      var k := s.KeyOf(p.fiveTuple);
      m[k := Extend(m, k, s.FieldsOf(p.fiveTuple), p)]
    else m
  }

  function Replay(s: Scheme, h: seq<PacketInfo>): map<string, Record> {
    if h == [] then map[] else Touch(s, Replay(s, h[..|h| - 1]), h[|h| - 1])
  }

  lemma {:induction false} ReplayAppend(s: Scheme, h: seq<PacketInfo>, p: PacketInfo)
    ensures Replay(s, h + [p]) == Touch(s, Replay(s, h), p)
  {
    assert (h + [p])[..|h|] == h;
  }

  // What the records mean.

  /** The packets of h with key k, in order. */
  function PacketsOf(s: Scheme, h: seq<PacketInfo>, k: string): seq<PacketInfo> {
    if h == [] then []
    else
      var p := h[|h| - 1];
      var rest := PacketsOf(s, h[..|h| - 1], k);
      if s.Known() && s.KeyOf(p.fiveTuple) == k then rest + [p] else rest
  }

  function SizeSum(h: seq<PacketInfo>): nat {
    if h == [] then 0 else SizeSum(h[..|h| - 1]) + Size64(h[|h| - 1])
  }

  /** The converted lengths add up to the plain sum modulo 2^64, and to the plain sum itself when no length
      is negative; below 2^63 they add up to nothing else. */
  lemma {:induction false} SizesAreLengths(h: seq<PacketInfo>)
    ensures SizeSum(h) % TWO_64 == Lengths(h) % TWO_64
    ensures NoneNegative(h) ==> SizeSum(h) == Lengths(h)
    ensures SizeSum(h) < TWO_63 <==> NoneNegative(h) && Lengths(h) < TWO_63
  {
    if h != [] {
      var init, p := h[..|h| - 1], h[|h| - 1];
      SizesAreLengths(init);
      SumsAgree(SizeSum(init), Lengths(init), p.length);
      assert NoneNegative(h) <==> NoneNegative(init) && p.length >= 0 by {
        assert forall q :: q in h <==> q in init || q == p;
      }
      SmallSums(SizeSum(init), Lengths(init), NoneNegative(init), p.length);
    }
  }

  lemma SmallSums(a: nat, b: int, plain: bool, x: int64)
    requires plain ==> a == b
    requires a < TWO_63 <==> plain && b < TWO_63
    ensures plain && x >= 0 ==> a + x % TWO_64 == b + x
    ensures a + x % TWO_64 < TWO_63 <==> plain && x >= 0 && b + x < TWO_63
  {
  }

  lemma SumsAgree(a: nat, b: int, x: int)
    requires a % TWO_64 == b % TWO_64
    ensures (a + x % TWO_64) % TWO_64 == (b + x) % TWO_64
  {
  }

  /** The packets of a flow in one record: how many and how long, modulo 2^64, and the first and the last
      time stamp in order of processing. */
  function Summary(s: Scheme, of: seq<PacketInfo>): Record
    requires of != []
  {
    Record(s.FieldsOf(of[0].fiveTuple), of[0].timestamp, of[|of| - 1].timestamp, |of| % TWO_64, Lengths(of) % TWO_64)
  }

  lemma {:induction false} RecordsAreSummaries(s: Scheme, h: seq<PacketInfo>, k: string)
    ensures k in Replay(s, h) <==> PacketsOf(s, h, k) != []
    ensures k in Replay(s, h) ==> Replay(s, h)[k] == Summary(s, PacketsOf(s, h, k))
  {
    if h != [] {
      var init, p := h[..|h| - 1], h[|h| - 1];
      RecordsAreSummaries(s, init, k);
      TouchExtends(s, Replay(s, init), PacketsOf(s, init, k), p, k);
    }
  }

  lemma TouchExtends(s: Scheme, m: map<string, Record>, before: seq<PacketInfo>, p: PacketInfo, k: string)
    requires k in m <==> before != []
    requires k in m ==> m[k] == Summary(s, before)
    ensures var after := if s.Known() && s.KeyOf(p.fiveTuple) == k then before + [p] else before;
            && (k in Touch(s, m, p) <==> after != [])
            && (k in Touch(s, m, p) ==> Touch(s, m, p)[k] == Summary(s, after))
  {
    if s.Known() && s.KeyOf(p.fiveTuple) == k {
      SummaryExtends(s, before, p);
    }
  }

  lemma SummaryExtends(s: Scheme, before: seq<PacketInfo>, p: PacketInfo)
    ensures Summary(s, before + [p]) ==
            if before == [] then Record(s.FieldsOf(p.fiveTuple), p.timestamp, p.timestamp, 1, Size64(p))
            else var r := Summary(s, before);
                 r.(endTime := p.timestamp, packetCount := (r.packetCount + 1) % TWO_64,
                    byteCount := (r.byteCount + Size64(p)) % TWO_64)
  {
    SizeSumAppend(before, p);
    SizesAreLengths(before);
    SizesAreLengths(before + [p]);
    if before != [] {
      WrapsOnce(|before|, 1);
      WrapsOnce(SizeSum(before), Size64(p));
      assert (before + [p])[0] == before[0];
    }
  }

  lemma {:induction false} SizeSumAppend(h: seq<PacketInfo>, p: PacketInfo)
    ensures SizeSum(h + [p]) == SizeSum(h) + Size64(p)
  {
    assert (h + [p])[..|h|] == h;
  }

  lemma WrapsOnce(a: nat, b: nat)
    ensures (a % TWO_64 + b) % TWO_64 == (a + b) % TWO_64
  {
  }

  // Keys.

  lemma {:induction false} TextsOfKnown(s: Scheme, fields: seq<Field>, ft: FiveTuple)
    requires s.Ok() && forall f :: f in fields ==> !f.Unknown?
    ensures |Texts(fields, ft, s.ipText)| == |fields|
    ensures Without('-', Texts(fields, ft, s.ipText))
    ensures forall i :: 0 <= i < |fields| ==>
              [Texts(fields, ft, s.ipText)[i]] == FieldText(Selected(fields[i], ft), s.ipText)
  {
    if fields != [] {
      TextsOfKnown(s, fields[1..], ft);
      AtoiOfItoa(ft.srcPort);
      AtoiOfItoa(ft.dstPort);
      AtoiOfItoa(ft.protocol);
    }
  }

  lemma {:induction false} TextsSnoc(fields: seq<Field>, f: Field, ft: FiveTuple, ipText: Key -> string)
    ensures Texts(fields + [f], ft, ipText) == Texts(fields, ft, ipText) + FieldText(Selected(f, ft), ipText)
  {
    if fields != [] {
      TextsSnoc(fields[1..], f, ft, ipText);
      assert (fields + [f])[1..] == fields[1..] + [f];
    } else {
      assert fields + [f] == [f];
    }
  }

  lemma ShownByText(s: Scheme, f: Field, ft: FiveTuple, gt: FiveTuple)
    requires !f.Unknown?
    ensures FieldText(Selected(f, ft), s.ipText) == FieldText(Selected(f, gt), s.ipText) <==>
              s.Show(f, ft) == s.Show(f, gt)
  {
    AtoiOfItoa(ft.srcPort);
    AtoiOfItoa(gt.srcPort);
    AtoiOfItoa(ft.dstPort);
    AtoiOfItoa(gt.dstPort);
    AtoiOfItoa(ft.protocol);
    AtoiOfItoa(gt.protocol);
    SingleInjective(FieldText(Selected(f, ft), s.ipText), FieldText(Selected(f, gt), s.ipText));
  }

  lemma SingleInjective(a: seq<string>, b: seq<string>)
    ensures |a| == |b| == 1 ==> (a == b <==> a[0] == b[0])
  {
  }

  /** Two packets share a key exactly when they show the same value in every key field, so a record's
      fields hold for all its packets. */
  lemma KeyIsFields(s: Scheme, ft: FiveTuple, gt: FiveTuple)
    requires s.Ok() && s.Known()
    ensures s.KeyOf(ft) == s.KeyOf(gt) <==> s.FieldsOf(ft) == s.FieldsOf(gt)
  {
    var a, b := Texts(s.fields, ft, s.ipText), Texts(s.fields, gt, s.ipText);
    TextsOfKnown(s, s.fields, ft);
    TextsOfKnown(s, s.fields, gt);
    if s.KeyOf(ft) == s.KeyOf(gt) {
      JoinInjective(a, b, '-');
      forall f | f in s.fields ensures s.Show(f, ft) == s.Show(f, gt) {
        var i :| 0 <= i < |s.fields| && s.fields[i] == f;
        assert [a[i]] == [b[i]];
        ShownByText(s, f, ft, gt);
      }
    }
    if s.FieldsOf(ft) == s.FieldsOf(gt) {
      forall i | 0 <= i < |s.fields| ensures a[i] == b[i] {
        var f := s.fields[i];
        assert s.FieldsOf(ft)[f] == s.Show(f, ft) && s.FieldsOf(gt)[f] == s.Show(f, gt);
        ShownByText(s, f, ft, gt);
        assert [a[i]] == [b[i]];
        SingleInjective([a[i]], [b[i]]);
      }
      assert a == b;
    }
  }

  /** The key of the full five-tuple. */
  lemma FiveTupleKey(s: Scheme, ft: FiveTuple)
    requires s.fields == [SrcIP, DstIP, SrcPort, DstPort, Protocol]
    ensures s.KeyOf(ft) == s.ipText(ft.srcIP) + "-" + s.ipText(ft.dstIP) + "-" + Itoa(ft.srcPort) + "-"
                           + Itoa(ft.dstPort) + "-" + Itoa(ft.protocol)
  {
    var a, b, c, d, e := s.ipText(ft.srcIP), s.ipText(ft.dstIP), Itoa(ft.srcPort), Itoa(ft.dstPort), Itoa(ft.protocol);
    TextsOfFive(s, ft, a, b, c, d, e);
    JoinFive(a, b, c, d, e);
    assert s.KeyOf(ft) == Join([a, b, c, d, e], '-');
  }

  /** And its fields. */
  lemma FiveTupleFields(s: Scheme, ft: FiveTuple)
    requires s.fields == [SrcIP, DstIP, SrcPort, DstPort, Protocol]
    ensures s.FieldsOf(ft) == map[SrcIP := Label(s.ipText(ft.srcIP)), DstIP := Label(s.ipText(ft.dstIP)),
                                  SrcPort := Amount(ft.srcPort), DstPort := Amount(ft.dstPort),
                                  Protocol := Amount(ft.protocol)]
  {
  }

  lemma {:induction false} TextsOfFive(s: Scheme, ft: FiveTuple, a: string, b: string, c: string, d: string, e: string)
    requires s.fields == [SrcIP, DstIP, SrcPort, DstPort, Protocol]
    requires a == s.ipText(ft.srcIP) && b == s.ipText(ft.dstIP)
    requires c == Itoa(ft.srcPort) && d == Itoa(ft.dstPort) && e == Itoa(ft.protocol)
    ensures Texts(s.fields, ft, s.ipText) == [a, b, c, d, e]
  {
    assert Texts([Protocol], ft, s.ipText) == [e];
    assert Texts([DstPort, Protocol], ft, s.ipText) == [d, e];
    assert Texts([SrcPort, DstPort, Protocol], ft, s.ipText) == [c, d, e];
    assert Texts([DstIP, SrcPort, DstPort, Protocol], ft, s.ipText) == [b, c, d, e];
  }

  lemma JoinFive(a: string, b: string, c: string, d: string, e: string)
    ensures Join([a, b, c, d, e], '-') == a + "-" + b + "-" + c + "-" + d + "-" + e
  {
    assert Join([e], '-') == e;
    assert Join([d, e], '-') == d + "-" + e;
    assert Join([c, d, e], '-') == c + "-" + (d + "-" + e);
    assert Join([b, c, d, e], '-') == b + "-" + (c + "-" + (d + "-" + e));
  }

  // Sums over maps.

  /** The sum of a column over some keys of a map. */
  ghost function Sum<K, V>(m: map<K, V>, keys: set<K>, column: V -> nat): nat
    requires keys <= m.Keys
  {
    if keys == {} then 0
    else
      var k :| k in keys;
      column(m[k]) + Sum(m, keys - {k}, column)
  }

  lemma {:induction false} SumTakesOut<K, V>(m: map<K, V>, keys: set<K>, column: V -> nat, k: K)
    requires keys <= m.Keys && k in keys
    ensures Sum(m, keys, column) == column(m[k]) + Sum(m, keys - {k}, column)
    decreases keys
  {
    var x :| x in keys && Sum(m, keys, column) == column(m[x]) + Sum(m, keys - {x}, column);
    if x != k {
      SumTakesOut(m, keys - {x}, column, k);
      SumTakesOut(m, keys - {k}, column, x);
      assert keys - {x} - {k} == keys - {k} - {x};
    }
  }

  lemma {:induction false} SumAgrees<K, V>(m: map<K, V>, n: map<K, V>, keys: set<K>, column: V -> nat)
    requires keys <= m.Keys && keys <= n.Keys && forall k :: k in keys ==> m[k] == n[k]
    ensures Sum(m, keys, column) == Sum(n, keys, column)
    decreases keys
  {
    if keys != {} {
      var k :| k in keys;
      SumTakesOut(m, keys, column, k);
      SumTakesOut(n, keys, column, k);
      SumAgrees(m, n, keys - {k}, column);
    }
  }

  lemma {:induction false} SumOfUnion<K, V>(m: map<K, V>, a: set<K>, b: set<K>, column: V -> nat)
    requires a + b <= m.Keys && a !! b
    ensures Sum(m, a + b, column) == Sum(m, a, column) + Sum(m, b, column)
    decreases a
  {
    if a == {} {
      assert a + b == b;
    } else {
      var k :| k in a;
      SumTakesOut(m, a, column, k);
      SumTakesOut(m, a + b, column, k);
      assert a + b - {k} == (a - {k}) + b;
      SumOfUnion(m, a - {k}, b, column);
    }
  }

  lemma {:induction false} SumModulo(m: map<string, Record>, done: set<string>, column: Record -> nat, k: string,
                                     start: nat)
    requires done <= m.Keys && k in m && k !in done
    ensures Add64(Add64(start, Sum(m, done, column)), column(m[k])) == Add64(start, Sum(m, done + {k}, column))
  {
    SumTakesOut(m, done + {k}, column, k);
    assert done + {k} - {k} == done;
    WrapsOnce(start + Sum(m, done, column), column(m[k]));
  }

  datatype Totals = Totals(packets: nat, bytes: nat, flows: nat)

  /** The running totals, having started from others, when the flows in todo are still to come. */
  ghost predicate AddedUp(m: map<string, Record>, todo: set<string>, start: Totals, t: Totals) {
    var done := m.Keys - todo;
    && t.packets == Add64(start.packets, Sum(m, done, PACKET_COUNT))
    && t.bytes == Add64(start.bytes, Sum(m, done, BYTE_COUNT))
    && t.flows == start.flows + |done|
  }

  lemma NothingAdded(m: map<string, Record>, t: Totals)
    requires t.packets < TWO_64 && t.bytes < TWO_64
    ensures AddedUp(m, m.Keys, t, t)
  {
    assert m.Keys - m.Keys == {};
  }

  lemma OneMoreFlow(m: map<string, Record>, todo: set<string>, k: string, r: Record, start: Totals)
    requires todo <= m.Keys && k in todo && m[k] == r
    ensures forall t :: AddedUp(m, todo, start, t) ==>
              AddedUp(m, todo - {k}, start,
                      Totals(Add64(t.packets, r.packetCount), Add64(t.bytes, r.byteCount), t.flows + 1))
  {
    assert m.Keys - (todo - {k}) == (m.Keys - todo) + {k};
    SumModulo(m, m.Keys - todo, PACKET_COUNT, k, start.packets);
    SumModulo(m, m.Keys - todo, BYTE_COUNT, k, start.bytes);
  }

  /** Changing one record changes the sum by the difference. */
  lemma {:induction false} SumOfUpdate<K, V>(m: map<K, V>, k: K, r: V, column: V -> nat)
    ensures Sum(m[k := r], m.Keys + {k}, column)
            == Sum(m, m.Keys, column) + column(r) - (if k in m then column(m[k]) else 0)
  {
    var n := m[k := r];
    SumTakesOut(n, m.Keys + {k}, column, k);
    SumAgrees(m, n, m.Keys - {k}, column);
    assert m.Keys + {k} - {k} == m.Keys - {k};
    if k in m {
      SumTakesOut(m, m.Keys, column, k);
    } else {
      assert m.Keys - {k} == m.Keys;
    }
  }

  /** The sum of a column over a whole map. */
  ghost function Whole<K, V>(m: map<K, V>, column: V -> nat): nat {
    Sum(m, m.Keys, column)
  }

  const PACKET_COUNT: Record -> nat := (r: Record) => r.packetCount
  const BYTE_COUNT: Record -> nat := (r: Record) => r.byteCount

  lemma TouchAdds(s: Scheme, m: map<string, Record>, p: PacketInfo, column: Record -> nat, d: uint64)
    requires s.Known()
    requires var k := s.KeyOf(p.fiveTuple);
             column(Extend(m, k, s.FieldsOf(p.fiveTuple), p)) == (if k in m then (column(m[k]) + d) % TWO_64 else d)
    requires forall r: Record :: column(r) < TWO_64
    ensures Whole(Touch(s, m, p), column) % TWO_64 == (Whole(m, column) + d) % TWO_64
  {
    var k := s.KeyOf(p.fiveTuple);
    var r := Extend(m, k, s.FieldsOf(p.fiveTuple), p);
    SumOfUpdate(m, k, r, column);
    assert Touch(s, m, p).Keys == m.Keys + {k};
    if k in m {
      SumTakesOut(m, m.Keys, column, k);
      CarriesOver(Whole(m, column), column(m[k]), d);
    }
  }

  lemma TouchCounts(s: Scheme, m: map<string, Record>, p: PacketInfo)
    requires s.Known()
    ensures Whole(Touch(s, m, p), PACKET_COUNT) % TWO_64 == (Whole(m, PACKET_COUNT) + 1) % TWO_64
    ensures Whole(Touch(s, m, p), BYTE_COUNT) % TWO_64 == (Whole(m, BYTE_COUNT) + Size64(p)) % TWO_64
  {
    TouchAdds(s, m, p, PACKET_COUNT, 1);
    TouchAdds(s, m, p, BYTE_COUNT, Size64(p));
  }

  lemma TotalsStep(s: Scheme, m: map<string, Record>, p: PacketInfo, packets: nat, bytes: nat)
    requires s.Known()
    requires Whole(m, PACKET_COUNT) % TWO_64 == packets % TWO_64 && Whole(m, BYTE_COUNT) % TWO_64 == bytes % TWO_64
    ensures Whole(Touch(s, m, p), PACKET_COUNT) % TWO_64 == (packets + 1) % TWO_64
    ensures Whole(Touch(s, m, p), BYTE_COUNT) % TWO_64 == (bytes + Size64(p)) % TWO_64
  {
    TouchCounts(s, m, p);
    Congruent(Whole(m, PACKET_COUNT), packets, 1);
    Congruent(Whole(m, BYTE_COUNT), bytes, Size64(p));
  }

  lemma {:induction false} TotalsOfKnown(s: Scheme, h: seq<PacketInfo>)
    requires s.Known()
    ensures Whole(Replay(s, h), PACKET_COUNT) % TWO_64 == |h| % TWO_64
    ensures Whole(Replay(s, h), BYTE_COUNT) % TWO_64 == SizeSum(h) % TWO_64
  {
    if h != [] {
      var init, p := h[..|h| - 1], h[|h| - 1];
      TotalsOfKnown(s, init);
      TotalsStep(s, Replay(s, init), p, |init|, SizeSum(init));
      ReplayAppend(s, init, p);
      SizeSumAppend(init, p);
      assert h == init + [p];
    }
  }

  lemma {:induction false} UnknownKeepsNothing(s: Scheme, h: seq<PacketInfo>)
    requires !s.Known()
    ensures Replay(s, h) == map[]
  {
    if h != [] {
      UnknownKeepsNothing(s, h[..|h| - 1]);
    }
  }

  /** However the packets are split into flows, the totals are those of the traffic, so two tasks with
      known key fields report the same ones. */
  lemma {:induction false} TotalsAreOfTraffic(s: Scheme, h: seq<PacketInfo>)
    ensures Whole(Replay(s, h), PACKET_COUNT) % TWO_64 == |s.Accepted(h)| % TWO_64
    ensures Whole(Replay(s, h), BYTE_COUNT) % TWO_64 == Lengths(s.Accepted(h)) % TWO_64
    ensures |Replay(s, h)| == |s.Flows(h)|
  {
    SizesAreLengths(s.Accepted(h));
    FlowsAreKeys(s, h);
    if s.Known() {
      TotalsOfKnown(s, h);
    } else {
      UnknownKeepsNothing(s, h);
    }
  }

  lemma {:induction false} FlowsAreKeys(s: Scheme, h: seq<PacketInfo>)
    ensures Replay(s, h).Keys == s.Flows(h)
    ensures |Replay(s, h)| == |s.Flows(h)|
  {
    if h != [] {
      var init, p := h[..|h| - 1], h[|h| - 1];
      FlowsAreKeys(s, init);
      assert forall q :: q in h <==> q in init || q == p;
    }
    assert |Replay(s, h)| == |Replay(s, h).Keys|;
  }

  lemma Congruent(a: nat, b: nat, d: nat)
    requires a % TWO_64 == b % TWO_64
    ensures (a + d) % TWO_64 == (b + d) % TWO_64
  {
    WrapsOnce(a, d);
    WrapsOnce(b, d);
  }

  /** Replacing a summand x by (x + d) mod 2^64 adds d to the sum, modulo 2^64. */
  lemma CarriesOver(sum: nat, x: uint64, d: uint64)
    requires x <= sum
    ensures (sum + (x + d) % TWO_64 - x) % TWO_64 == (sum + d) % TWO_64
  {
    assert (x + d) % TWO_64 == x + d || (x + d) % TWO_64 == x + d - TWO_64;
  }

  // A map split over shards.

  /** The shards' key sets are those that route sends there, and together they are m. */
  ghost predicate Splits(views: seq<map<string, Record>>, m: map<string, Record>, route: string -> nat) {
    && (forall i, k :: 0 <= i < |views| && k in views[i] ==> route(k) == i && k in m && views[i][k] == m[k])
    && (forall k :: k in m ==> route(k) < |views| && k in views[route(k)])
  }

  ghost function TableSum(views: seq<map<string, Record>>, column: Record -> nat): nat {
    if views == [] then 0 else TableSum(views[..|views| - 1], column) + Whole(views[|views| - 1], column)
  }

  ghost function TableSize(views: seq<map<string, Record>>): nat {
    if views == [] then 0 else TableSize(views[..|views| - 1]) + |views[|views| - 1]|
  }

  /** The totals over a snapshot's shards. */
  ghost function TableTotals(views: seq<map<string, Record>>): Totals {
    Totals(Wrap64(TableSum(views, PACKET_COUNT)), Wrap64(TableSum(views, BYTE_COUNT)), TableSize(views))
  }

  lemma TableSumStep(views: seq<map<string, Record>>, i: nat, column: Record -> nat)
    requires i < |views|
    ensures Wrap64(TableSum(views[..i + 1], column)) ==
              Add64(Wrap64(TableSum(views[..i], column)), Whole(views[i], column))
    ensures TableSize(views[..i + 1]) == TableSize(views[..i]) + |views[i]|
  {
    assert views[..i + 1][..i] == views[..i];
    WrapsOnce(TableSum(views[..i], column), Whole(views[i], column));
  }

  lemma TableTotalsStep(views: seq<map<string, Record>>, i: nat, t: Totals)
    requires i < |views| && AddedUp(views[i], {}, TableTotals(views[..i]), t)
    ensures t == TableTotals(views[..i + 1])
  {
    TableSumStep(views, i, PACKET_COUNT);
    TableSumStep(views, i, BYTE_COUNT);
    assert views[i].Keys - {} == views[i].Keys && |views[i].Keys| == |views[i]|;
  }

  ghost function Below(m: map<string, Record>, route: string -> nat, n: nat): set<string> {
    set k | k in m && route(k) < n
  }

  lemma BelowNext(views: seq<map<string, Record>>, m: map<string, Record>, route: string -> nat, n: nat)
    requires Splits(views, m, route) && n < |views|
    ensures Below(m, route, n + 1) == Below(m, route, n) + views[n].Keys && views[n].Keys !! Below(m, route, n)
  {
  }

  lemma {:induction false} SplitUpTo(views: seq<map<string, Record>>, m: map<string, Record>,
                                     route: string -> nat, n: nat,
                                     column: Record -> nat)
    requires Splits(views, m, route) && n <= |views|
    ensures TableSum(views[..n], column) == Sum(m, Below(m, route, n), column)
  {
    if n == 0 {
      assert Below(m, route, 0) == {};
    } else {
      SplitUpTo(views, m, route, n - 1, column);
      assert views[..n][..n - 1] == views[..n - 1];
      BelowNext(views, m, route, n - 1);
      SumOfUnion(m, Below(m, route, n - 1), views[n - 1].Keys, column);
      SumAgrees(m, views[n - 1], views[n - 1].Keys, column);
    }
  }

  lemma {:induction false} SplitSizes(views: seq<map<string, Record>>, m: map<string, Record>,
                                      route: string -> nat, n: nat)
    requires Splits(views, m, route) && n <= |views|
    ensures TableSize(views[..n]) == |Below(m, route, n)|
  {
    if n == 0 {
      assert Below(m, route, 0) == {};
    } else {
      SplitSizes(views, m, route, n - 1);
      assert views[..n][..n - 1] == views[..n - 1];
      BelowNext(views, m, route, n - 1);
      assert |views[n - 1]| == |views[n - 1].Keys|;
    }
  }

  /** Totals over the shards are totals over the map. */
  lemma {:induction false} SplitTotals(views: seq<map<string, Record>>, m: map<string, Record>, route: string -> nat,
                                       column: Record -> nat)
    requires Splits(views, m, route)
    ensures TableSum(views, column) == Whole(m, column) && TableSize(views) == |m|
  {
    SplitUpTo(views, m, route, |views|, column);
    SplitSizes(views, m, route, |views|);
    assert views[..|views|] == views;
    assert Below(m, route, |views|) == m.Keys;
  }

  // Alerts.

  datatype Operator = Greater | Less | Equal | AtLeast | AtMost | OtherOperator(text: string)
  datatype Metric = TotalPackets | TotalBytes | TotalFlows | OtherMetric(text: string)
  datatype Rule = Rule(name: string, taskName: string, metric: Metric, threshold: real, operator: Operator)
  datatype Alert = Alert(rule: Rule, value: nat)
  predicate Check(value: real, threshold: real, operator: Operator) {
    match operator
    case Greater => value > threshold
    case Less => value < threshold
    case Equal => value == threshold
    case AtLeast => value >= threshold
    case AtMost => value <= threshold
    case OtherOperator(_) => false
  }

  function Measured(metric: Metric, t: Totals): nat {
    match metric
    case TotalPackets => t.packets
    case TotalBytes => t.bytes
    case TotalFlows => t.flows
    case OtherMetric(_) => 0
  }

  predicate Fires(rule: Rule, task: string, t: Totals) {
    && rule.taskName == task && !rule.metric.OtherMetric?
    && Check(Measured(rule.metric, t) as real, rule.threshold, rule.operator)
  }

  /** A rule fires when its operator admits the side of the threshold on which the metric's value lies; rules for
      other tasks, metrics or operators never do. */
  lemma RuleFires(rule: Rule, task: string, t: Totals, value: nat)
    requires match rule.metric
             case TotalPackets => value == t.packets
             case TotalBytes => value == t.bytes
             case TotalFlows => value == t.flows
             case OtherMetric(_) => true
    ensures Fires(rule, task, t) <==>
              && rule.taskName == task && !rule.metric.OtherMetric?
              && rule.operator in if value as real > rule.threshold then {Greater, AtLeast}
                                  else if value as real == rule.threshold then {Equal, AtLeast, AtMost}
                                  else {Less, AtMost}
    ensures !rule.metric.OtherMetric? ==> Measured(rule.metric, t) == value
  {
  }

  /** The alerts a task raises, in the order of the rules. */
  function Alerts(rules: seq<Rule>, task: string, t: Totals): seq<Alert> {
    if rules == [] then []
    else
      var rule := rules[|rules| - 1];
      var rest := Alerts(rules[..|rules| - 1], task, t);
      if Fires(rule, task, t) then rest + [Alert(rule, Measured(rule.metric, t))] else rest
  }

  /** The alerts are those of the rules that fire, each with the value compared, in the order of the
      rules. */
  lemma {:induction false} AlertsAreFirings(rules: seq<Rule>, task: string, t: Totals) returns (at: seq<nat>)
    ensures |at| == |Alerts(rules, task, t)| && forall i, j :: 0 <= i < j < |at| ==> at[i] < at[j]
    ensures forall i :: 0 <= i < |at| ==>
              && at[i] < |rules| && Fires(rules[at[i]], task, t)
              && Alerts(rules, task, t)[i] == Alert(rules[at[i]], Measured(rules[at[i]].metric, t))
    ensures forall k :: 0 <= k < |rules| && Fires(rules[k], task, t) ==> k in at
  {
    at := [];
    if rules != [] {
      var n := |rules| - 1;
      var init := rules[..n];
      at := AlertsAreFirings(init, task, t);
      assert forall k :: 0 <= k < n ==> init[k] == rules[k];
      if Fires(rules[n], task, t) {
        at := at + [n];
      }
    }
  }

  // The packed answer of Query.

  /** The bytes that Query reads before it meets an unknown name. */
  function Needed(fields: seq<Field>): nat {
    if fields == [] || fields[0].Unknown? then 0 else FieldByteSize(fields[0]) + Needed(fields[1..])
  }

  lemma {:induction false} NeededOfKnown(fields: seq<Field>)
    requires forall f :: f in fields ==> !f.Unknown?
    ensures Needed(fields) == Total(fields)
  {
    if fields != [] {
      NeededOfKnown(fields[1..]);
    }
  }

  /** A query for the encoded fields of a packet asks for that packet's own key. */
  lemma {:induction false} LayoutAsksForKey(s: Scheme, ft: FiveTuple)
    requires s.Known() && Full(s.fields, ft)
    ensures |Layout(s.fields, ft)| == Needed(s.fields)
    ensures |Layout(s.fields, ft)| == Total(s.fields)
    ensures Join(Decoded(s.fields, Layout(s.fields, ft), s.ipText), '-') == s.KeyOf(ft)
  {
    NeededOfKnown(s.fields);
    DecodedOfLayout(s.fields, ft, s.ipText);
  }

  /** Bitwise or of natural numbers. */
  function Or(a: nat, b: nat): nat {
    if a == 0 && b == 0 then 0 else (if a % 2 == 1 || b % 2 == 1 then 1 else 0) + 2 * Or(a / 2, b / 2)
  }

  function BitAt(a: nat, k: nat): nat {
    if k == 0 then a % 2 else BitAt(a / 2, k - 1)
  }

  /** A bit is set in the result exactly when it is in either number. */
  lemma {:induction false} OrBits(a: nat, b: nat, k: nat)
    ensures BitAt(Or(a, b), k) == Max(BitAt(a, k), BitAt(b, k))
    decreases k
  {
    if k > 0 {
      OrBits(a / 2, b / 2, k - 1);
    }
  }

  lemma {:induction false} OrWithZero(b: nat)
    ensures Or(0, b) == b
  {
    if b != 0 {
      OrWithZero(b / 2);
    }
  }

  lemma {:induction false} OrOfDisjoint(hi: nat, lo: nat, k: nat)
    requires lo < Pow2(k)
    ensures Or(hi * Pow2(k), lo) == hi * Pow2(k) + lo
    decreases k
  {
    if hi == 0 || k == 0 {
      OrWithZero(lo);
      OrComm(hi, lo);
      OrWithZero(hi);
    } else {
      var a := hi * Pow2(k);
      Halves(hi, Pow2(k - 1));
      OrOfDisjoint(hi, lo / 2, k - 1);
    }
  }

  lemma Halves(hi: nat, x: nat)
    ensures hi * (2 * x) == 2 * (hi * x)
  {
  }

  lemma {:induction false} OrComm(a: nat, b: nat)
    ensures Or(a, b) == Or(b, a)
    decreases a + b
  {
    if a != 0 || b != 0 {
      OrComm(a / 2, b / 2);
    }
  }

  /** flow.PacketCount<<32 | flow.ByteCount. */
  function Packed(r: Record): nat {
    Or(r.packetCount * TWO_32 % TWO_64, r.byteCount)
  }

  /** The answer splits back into the two counters exactly when both are below 2^32. */
  lemma PackedSplitsIff(r: Record)
    ensures Packed(r) < TWO_64
    ensures r.packetCount < TWO_32 && r.byteCount < TWO_32 <==>
              Packed(r) / TWO_32 == r.packetCount && Packed(r) % TWO_32 == r.byteCount
  {
    Pow2Of32();
    OrFits(r.packetCount * TWO_32 % TWO_64, r.byteCount, 64);
    if r.packetCount < TWO_32 && r.byteCount < TWO_32 {
      OrOfDisjoint(r.packetCount, r.byteCount, 32);
    }
  }

  lemma Pow2Of32()
    ensures Pow2(32) == TWO_32 && Pow2(64) == TWO_64
  {
    assert Pow2(4) == 16;
    Pow2Add(4, 4);
    Pow2Add(8, 8);
    Pow2Add(16, 16);
    Pow2Add(32, 32);
  }

  lemma {:induction false} Pow2Add(a: nat, b: nat)
    ensures Pow2(a + b) == Pow2(a) * Pow2(b)
  {
    if a > 0 {
      Pow2Add(a - 1, b);
      assert Pow2(a + b) == 2 * Pow2(a - 1 + b);
    }
  }

  lemma {:induction false} OrFits(a: nat, b: nat, k: nat)
    requires a < Pow2(k) && b < Pow2(k)
    ensures Or(a, b) < Pow2(k)
    decreases k
  {
    if k > 0 {
      OrFits(a / 2, b / 2, k - 1);
    }
  }

  /** What Query answers for the encoded fields of a packet: the packets of its flow above, and their plain length
      below, as long as both fit. */
  lemma {:induction false} AnswerIsTraffic(s: Scheme, h: seq<PacketInfo>, ft: FiveTuple, r: nat)
    requires s.Known() && Full(s.fields, ft) && |Layout(s.fields, ft)| >= Total(s.fields)
    requires var key := Join(Decoded(s.fields, Layout(s.fields, ft), s.ipText), '-');
             r == if key in Replay(s, h) then Packed(Replay(s, h)[key]) else 0
    requires var own := PacketsOf(s, h, s.KeyOf(ft));
             |own| < TWO_32 && NoneNegative(own) && Lengths(own) < TWO_32
    ensures var own := PacketsOf(s, h, s.KeyOf(ft)); r / TWO_32 == |own| && r % TWO_32 == Lengths(own)
  {
    var key, own := s.KeyOf(ft), PacketsOf(s, h, s.KeyOf(ft));
    LayoutAsksForKey(s, ft);
    RecordsAreSummaries(s, h, key);
    if own != [] {
      PackedSummary(s, own);
    }
  }

  lemma {:induction false} PackedSummary(s: Scheme, own: seq<PacketInfo>)
    requires own != [] && |own| < TWO_32 && NoneNegative(own) && Lengths(own) < TWO_32
    ensures Packed(Summary(s, own)) / TWO_32 == |own| && Packed(Summary(s, own)) % TWO_32 == Lengths(own)
  {
    SmallSummary(s, own);
    PackedSplitsIff(Summary(s, own));
  }

  lemma {:induction false} SmallSummary(s: Scheme, own: seq<PacketInfo>)
    requires own != [] && |own| < TWO_32 && NoneNegative(own) && Lengths(own) < TWO_32
    ensures Summary(s, own).packetCount == |own| && Summary(s, own).byteCount == Lengths(own)
  {
    SizesAreLengths(own);
  }
}
