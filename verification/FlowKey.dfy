/** How a five-tuple becomes the byte key of a sketch, and back (sketch/task.go). Keys are written into
    pooled buffers whose old contents are arbitrary. */
module FlowKey {
  import opened Words
  import opened Bytes
  import opened Text
  import opened Packets

  const IPV6_BYTE_SIZE: nat := 16
  const PORT_BYTE_SIZE: nat := 2
  const PROTO_BYTE_SIZE: nat := 1
  const MAX_FIELD_SIZE: nat := 37

  function FieldByteSize(field: Field): (n: nat) {
    match field
    case SrcIP => IPV6_BYTE_SIZE
    case DstIP => IPV6_BYTE_SIZE
    case SrcPort => PORT_BYTE_SIZE
    case DstPort => PORT_BYTE_SIZE
    case Protocol => PROTO_BYTE_SIZE
    case Unknown(_) => 0
  }

  predicate IsAddress(field: Field) {
    field == SrcIP || field == DstIP
  }

  /** The size of the key of a field list. */
  function Total(fields: seq<Field>): nat {
    if fields == [] then 0 else FieldByteSize(fields[0]) + Total(fields[1..])
  }

  function PortBytes(port: uint16): Key {
    [ByteFor(port / 0x100), ByteFor(port % 0x100)]
  }

  function PortValue(high: bv8, low: bv8): uint16 {
    0x100 * ByteValue(high) + ByteValue(low)
  }

  lemma PortRoundTrip(port: uint16)
    ensures PortValue(PortBytes(port)[0], PortBytes(port)[1]) == port
  {
    ByteValueOf(port / 0x100);
    ByteValueOf(port % 0x100);
  }

  /** What a field contributes to the key. */
  function FieldBytes(field: Field, ft: FiveTuple): Key {
    match field
    case SrcIP => ft.srcIP
    case DstIP => ft.dstIP
    case SrcPort => PortBytes(ft.srcPort)
    case DstPort => PortBytes(ft.dstPort)
    case Protocol => [ByteFor(ft.protocol)]
    case Unknown(_) => []
  }

  /** The key of a five-tuple with full-length addresses. */
  function Layout(fields: seq<Field>, ft: FiveTuple): Key {
    if fields == [] then [] else FieldBytes(fields[0], ft) + Layout(fields[1..], ft)
  }

  /** Every selected address has 16 bytes. */
  predicate Full(fields: seq<Field>, ft: FiveTuple) {
    forall f :: f in fields ==> |FieldBytes(f, ft)| == FieldByteSize(f)
  }

  /** copy(buf[at:], src). */
  function CopyAt(buf: Key, at: nat, src: Key): (r: Key)
    requires at <= |buf|
    ensures |r| == |buf|
  {
    buf[..at] + CopyInto(buf[at..], src)
  }

  /** The buffer after the fields are written from an offset on; the offset moves by the nominal sizes. */
  function Encoded(fields: seq<Field>, ft: FiveTuple, buf: Key, offset: nat): (r: Key)
    requires offset + Total(fields) <= |buf|
    ensures |r| == |buf|
    decreases |fields|
  {
    if fields == [] then buf
    else
      Encoded(fields[1..], ft, CopyAt(buf, offset, FieldBytes(fields[0], ft)), offset + FieldByteSize(fields[0]))
  }

  /** Writes one field; only the unchecked indexing of ports and protocol can fail. */
  method EncodeFlow(buf: array<bv8>, offset: nat, field: Field, ft: FiveTuple) returns (next: nat)
    requires offset + (if IsAddress(field) then 0 else FieldByteSize(field)) <= buf.Length
    modifies buf
    ensures next == offset + FieldByteSize(field)
    ensures buf[..] == CopyAt(old(buf[..]), offset, FieldBytes(field, ft))
  {
    next := offset;
    match field {
    case SrcIP =>
      CopyBytes(buf, offset, ft.srcIP);
      next := next + IPV6_BYTE_SIZE;
    case DstIP =>
      CopyBytes(buf, offset, ft.dstIP);
      next := next + IPV6_BYTE_SIZE;
    case SrcPort =>
      PutPort(buf, offset, ft.srcPort);
      next := next + PORT_BYTE_SIZE;
    case DstPort =>
      PutPort(buf, offset, ft.dstPort);
      next := next + PORT_BYTE_SIZE;
    case Protocol =>
      CopyOne(buf[..], offset, ByteFor(ft.protocol));
      buf[offset] := ByteFor(ft.protocol);
      next := next + PROTO_BYTE_SIZE;
    case Unknown(_) =>
    }
  }

  method PutPort(buf: array<bv8>, offset: nat, port: uint16)
    requires offset + PORT_BYTE_SIZE <= buf.Length
    modifies buf
    ensures buf[..] == CopyAt(old(buf[..]), offset, PortBytes(port))
  {
    CopyTwo(buf[..], offset, ByteFor(port / 0x100), ByteFor(port % 0x100));
    buf[offset] := ByteFor(port / 0x100);
    buf[offset + 1] := ByteFor(port % 0x100);
  }

  lemma CopyOne(s: Key, at: nat, x: bv8)
    requires at < |s|
    ensures CopyAt(s, at, [x]) == s[at := x]
  {
  }

  lemma CopyTwo(s: Key, at: nat, x: bv8, y: bv8)
    requires at + 1 < |s|
    ensures CopyAt(s, at, [x, y]) == s[at := x][at + 1 := y]
  {
    assert s[at..][2..] == s[at + 2..];
    assert s[at := x][at + 1 := y] == s[..at] + ([x, y] + s[at + 2..]);
  }

  /** copy(buf[at:], src) in place. */
  method CopyBytes(buf: array<bv8>, at: nat, src: Key)
    requires at <= buf.Length
    modifies buf
    ensures buf[..] == CopyAt(old(buf[..]), at, src)
  {
    var n := Min(|src|, buf.Length - at);
    forall k | 0 <= k < n {
      buf[at + k] := src[k];
    }
  }

  method EncodeFields(buf: array<bv8>, fields: seq<Field>, ft: FiveTuple) returns (offset: nat)
    requires buf.Length == Total(fields)
    modifies buf
    ensures offset == Total(fields)
    ensures buf[..] == Encoded(fields, ft, old(buf[..]), 0)
  {
    offset := 0;
    var k := 0;
    while k < |fields|
      invariant 0 <= k <= |fields|
      invariant offset + Total(fields[k..]) == Total(fields)
      invariant Encoded(fields[k..], ft, buf[..], offset) == Encoded(fields, ft, old(buf[..]), 0)
    {
      assert fields[k..][1..] == fields[k + 1..];
      offset := EncodeFlow(buf, offset, fields[k], ft);
      k := k + 1;
    }
  }

  /** Both keys of a packet. Their buffers come from two different pools. */
  method GenerateFlowAndElem(flow: array<bv8>, elem: array<bv8>, flowFields: seq<Field>, elementFields: seq<Field>,
                             ft: FiveTuple)
    requires flow != elem && flow.Length == Total(flowFields) && elem.Length == Total(elementFields)
    modifies flow, elem
    ensures flow[..] == Encoded(flowFields, ft, old(flow[..]), 0)
    ensures elem[..] == Encoded(elementFields, ft, old(elem[..]), 0)
    ensures Full(flowFields, ft) ==> flow[..] == Layout(flowFields, ft)
    ensures Full(elementFields, ft) ==> elem[..] == Layout(elementFields, ft)
  {
    var _ := EncodeFields(flow, flowFields, ft);
    var _ := EncodeFields(elem, elementFields, ft);
    if Full(flowFields, ft) {
      OverwritesEveryByte(flowFields, ft, old(flow[..]));
    }
    if Full(elementFields, ft) {
      OverwritesEveryByte(elementFields, ft, old(elem[..]));
    }
  }

  lemma CopyInRange(done: Key, rest: Key, n: nat, b: Key)
    requires |b| <= n <= |rest|
    ensures CopyAt(done + rest, |done|, b) == (done + CopyInto(rest[..n], b)) + rest[n..]
  {
    assert (done + rest)[..|done|] == done && (done + rest)[|done|..] == rest;
    assert CopyInto(rest, b) == CopyInto(rest[..n], b) + rest[n..];
  }

  lemma {:induction false} EncodedStep(fields: seq<Field>, ft: FiveTuple, done: Key, rest: Key)
    requires fields != [] && |rest| == Total(fields) && |FieldBytes(fields[0], ft)| <= FieldByteSize(fields[0])
    ensures var n := FieldByteSize(fields[0]);
            var written := CopyInto(rest[..n], FieldBytes(fields[0], ft));
            Encoded(fields, ft, done + rest, |done|) ==
            Encoded(fields[1..], ft, (done + written) + rest[n..], |done + written|)
  {
    CopyInRange(done, rest, FieldByteSize(fields[0]), FieldBytes(fields[0], ft));
  }

  /** The buffer is written front to back, each field in its own range. */
  lemma {:induction false} EncodedInRanges(fields: seq<Field>, ft: FiveTuple, done: Key, rest: Key)
    requires |rest| == Total(fields)
    requires forall f :: f in fields ==> |FieldBytes(f, ft)| <= FieldByteSize(f)
    ensures Encoded(fields, ft, done + rest, |done|) == done + Encoded(fields, ft, rest, 0)
    decreases |fields|, 1
  {
    if fields != [] {
      var n := FieldByteSize(fields[0]);
      var written, tail := CopyInto(rest[..n], FieldBytes(fields[0], ft)), rest[n..];
      EncodedStep(fields, ft, done, rest);
      EncodedInRanges(fields[1..], ft, done + written, tail);
      EncodedCons(fields, ft, rest);
      Regroup(done, written, Encoded(fields[1..], ft, tail, 0));
    }
  }

  lemma Regroup<T>(a: seq<T>, b: seq<T>, c: seq<T>)
    ensures (a + b) + c == a + (b + c)
  {
  }

  lemma {:induction false} EncodedCons(fields: seq<Field>, ft: FiveTuple, buf: Key)
    requires fields != [] && |buf| == Total(fields)
    requires forall f :: f in fields ==> |FieldBytes(f, ft)| <= FieldByteSize(f)
    ensures var n := FieldByteSize(fields[0]);
            Encoded(fields, ft, buf, 0) ==
            CopyInto(buf[..n], FieldBytes(fields[0], ft)) + Encoded(fields[1..], ft, buf[n..], 0)
    decreases |fields|, 0
  {
    var n := FieldByteSize(fields[0]);
    var written := CopyInto(buf[..n], FieldBytes(fields[0], ft));
    EncodedStep(fields, ft, [], buf);
    assert [] + buf == buf && [] + written == written;
    EncodedInRanges(fields[1..], ft, written, buf[n..]);
  }

  /** With 16-byte addresses nothing of the old buffer survives. */
  lemma {:induction false} OverwritesEveryByte(fields: seq<Field>, ft: FiveTuple, buf: Key)
    requires Full(fields, ft) && |buf| == Total(fields)
    ensures Encoded(fields, ft, buf, 0) == Layout(fields, ft)
    ensures |Layout(fields, ft)| == Total(fields)
    decreases |fields|
  {
    if fields != [] {
      EncodedCons(fields, ft, buf);
      OverwritesEveryByte(fields[1..], ft, buf[FieldByteSize(fields[0])..]);
    }
  }

  /** The key does not depend on what the pooled buffer held before exactly when every selected address
      has 16 bytes. */
  lemma {:induction false} BufferIndependentIff(fields: seq<Field>, ft: FiveTuple)
    requires |ft.srcIP| <= IPV6_BYTE_SIZE && |ft.dstIP| <= IPV6_BYTE_SIZE
    ensures Full(fields, ft) <==>
              forall s: Key, t: Key ::
                |s| == |t| == Total(fields) ==> Encoded(fields, ft, s, 0) == Encoded(fields, ft, t, 0)
  {
    if Full(fields, ft) {
      forall s: Key, t: Key | |s| == |t| == Total(fields)
        ensures Encoded(fields, ft, s, 0) == Encoded(fields, ft, t, 0)
      {
        OverwritesEveryByte(fields, ft, s);
        OverwritesEveryByte(fields, ft, t);
      }
    } else {
      var s, t := ShortAddressLeaks(fields, ft);
    }
  }

  lemma NeverLonger(fields: seq<Field>, ft: FiveTuple)
    requires |ft.srcIP| <= IPV6_BYTE_SIZE && |ft.dstIP| <= IPV6_BYTE_SIZE
    ensures forall f :: f in fields ==> |FieldBytes(f, ft)| <= FieldByteSize(f)
  {
  }

  /** An address shorter than 16 bytes leaves the end of its range as it was. */
  lemma {:induction false} ShortAddressLeaks(fields: seq<Field>, ft: FiveTuple) returns (s: Key, t: Key)
    requires |ft.srcIP| <= IPV6_BYTE_SIZE && |ft.dstIP| <= IPV6_BYTE_SIZE && !Full(fields, ft)
    ensures |s| == |t| == Total(fields) && Encoded(fields, ft, s, 0) != Encoded(fields, ft, t, 0)
    decreases |fields|
  {
    var b, n := FieldBytes(fields[0], ft), FieldByteSize(fields[0]);
    var rest := fields[1..];
    NeverLonger(fields, ft);
    if |b| == n {
      assert fields == [fields[0]] + rest;
      s, t := ShortAddressLeaks(rest, ft);
      LeakBehind(fields, ft, Zeros(n), Zeros(n), s, t);
      s, t := Zeros(n) + s, Zeros(n) + t;
    } else {
      var ones: Key := seq(n, _ => 1);
      LastByteStays(Zeros(n), ones, b);
      LeakBehind(fields, ft, Zeros(n), ones, Zeros(Total(rest)), Zeros(Total(rest)));
      s, t := Zeros(n) + Zeros(Total(rest)), ones + Zeros(Total(rest));
    }
  }

  lemma LastByteStays(a: Key, c: Key, b: Key)
    requires |b| < |a| == |c| && a[|a| - 1] != c[|a| - 1]
    ensures CopyInto(a, b) != CopyInto(c, b)
  {
    assert CopyInto(a, b)[|a| - 1] == a[|a| - 1] && CopyInto(c, b)[|a| - 1] == c[|a| - 1];
  }

  /** Two buffers that differ after the first field was written, or behind it, stay different. */
  lemma {:induction false} LeakBehind(fields: seq<Field>, ft: FiveTuple, a: Key, c: Key, s: Key, t: Key)
    requires fields != [] && |a| == |c| == FieldByteSize(fields[0]) && |s| == |t| == Total(fields[1..])
    requires forall f :: f in fields ==> |FieldBytes(f, ft)| <= FieldByteSize(f)
    ensures CopyInto(a, FieldBytes(fields[0], ft)) != CopyInto(c, FieldBytes(fields[0], ft))
            || Encoded(fields[1..], ft, s, 0) != Encoded(fields[1..], ft, t, 0)
            ==> Encoded(fields, ft, a + s, 0) != Encoded(fields, ft, c + t, 0)
  {
    EncodedCons(fields, ft, a + s);
    EncodedCons(fields, ft, c + t);
    var n := |a|;
    assert (a + s)[..n] == a && (a + s)[n..] == s && (c + t)[..n] == c && (c + t)[n..] == t;
    var e, g := Encoded(fields, ft, a + s, 0), Encoded(fields, ft, c + t, 0);
    var b := FieldBytes(fields[0], ft);
    assert e[..n] == CopyInto(a, b) && e[n..] == Encoded(fields[1..], ft, s, 0);
    assert g[..n] == CopyInto(c, b) && g[n..] == Encoded(fields[1..], ft, t, 0);
  }

  // Keys identify the selected fields.

  datatype FieldValue = Address(ip: Key) | Number(n: nat) | NoField

  /** The value that a field selects. */
  function Selected(field: Field, ft: FiveTuple): FieldValue {
    match field
    case SrcIP => Address(ft.srcIP)
    case DstIP => Address(ft.dstIP)
    case SrcPort => Number(ft.srcPort)
    case DstPort => Number(ft.dstPort)
    case Protocol => Number(ft.protocol)
    case Unknown(_) => NoField
  }

  lemma FieldBytesInjective(field: Field, ft: FiveTuple, gt: FiveTuple)
    ensures FieldBytes(field, ft) == FieldBytes(field, gt) <==> Selected(field, ft) == Selected(field, gt)
  {
    match field {
      case SrcPort => PortInjective(ft.srcPort, gt.srcPort);
      case DstPort => PortInjective(ft.dstPort, gt.dstPort);
      case Protocol => ProtocolInjective(ft.protocol, gt.protocol);
      case _ =>
    }
  }

  lemma PortInjective(p: uint16, q: uint16)
    ensures PortBytes(p) == PortBytes(q) ==> p == q
  {
    PortRoundTrip(p);
    PortRoundTrip(q);
  }

  lemma ProtocolInjective(p: uint8, q: uint8)
    ensures [ByteFor(p)] == [ByteFor(q)] ==> p == q
  {
    ByteValueOf(p);
    ByteValueOf(q);
    assert [ByteFor(p)] == [ByteFor(q)] ==> [ByteFor(p)][0] == [ByteFor(q)][0];
  }

  /** Two packets share a key exactly when they agree on every selected field. */
  lemma {:induction false} LayoutInjective(fields: seq<Field>, ft: FiveTuple, gt: FiveTuple)
    requires Full(fields, ft) && Full(fields, gt)
    ensures Layout(fields, ft) == Layout(fields, gt) <==> forall f :: f in fields ==> Selected(f, ft) == Selected(f, gt)
    decreases |fields|
  {
    if fields != [] {
      var rest := fields[1..];
      LayoutInjective(rest, ft, gt);
      FieldBytesInjective(fields[0], ft, gt);
      var a, b := FieldBytes(fields[0], ft), FieldBytes(fields[0], gt);
      var x, y := Layout(fields, ft), Layout(fields, gt);
      assert x[..|a|] == a && y[..|b|] == b && x[|a|..] == Layout(rest, ft) && y[|b|..] == Layout(rest, gt);
      assert forall f :: f in fields <==> f == fields[0] || f in rest;
    }
  }

  /** The key of the full five-tuple, byte by byte: addresses, ports in network order, protocol. */
  lemma {:induction false} FiveTupleLayout(ft: FiveTuple)
    ensures Layout([SrcIP, DstIP, SrcPort, DstPort, Protocol], ft) ==
            ft.srcIP + ft.dstIP
            + [(ft.srcPort / 0x100) as bv8, (ft.srcPort % 0x100) as bv8,
               (ft.dstPort / 0x100) as bv8, (ft.dstPort % 0x100) as bv8, ft.protocol as bv8]
  {
    PortInBytes(ft.srcPort);
    PortInBytes(ft.dstPort);
    ByteForIsByte(ft.protocol);
    LayoutCons(Protocol, [], ft);
    LayoutCons(DstPort, [Protocol], ft);
    LayoutCons(SrcPort, [DstPort, Protocol], ft);
    LayoutCons(DstIP, [SrcPort, DstPort, Protocol], ft);
    LayoutCons(SrcIP, [DstIP, SrcPort, DstPort, Protocol], ft);
    FiveParts(ft.srcIP, ft.dstIP, PortBytes(ft.srcPort), PortBytes(ft.dstPort), [ByteFor(ft.protocol)]);
  }

  lemma {:induction false} LayoutCons(field: Field, rest: seq<Field>, ft: FiveTuple)
    ensures Layout([field] + rest, ft) == FieldBytes(field, ft) + Layout(rest, ft)
  {
  }

  lemma FiveParts(a: Key, b: Key, c: Key, d: Key, e: Key)
    ensures a + (b + (c + (d + (e + [])))) == a + b + (c + d + e)
  {
  }

  lemma PortInBytes(port: uint16)
    ensures PortBytes(port) == [(port / 0x100) as bv8, (port % 0x100) as bv8]
  {
    ByteForIsByte(port / 0x100);
    ByteForIsByte(port % 0x100);
  }

  // Reading a key back.

  /** The text of a field, given the text form of addresses. */
  function FieldText(v: FieldValue, ipText: Key -> string): seq<string> {
    match v
    case Address(ip) => [ipText(ip)]
    case Number(n) => [Itoa(n)]
    case NoField => []
  }

  /** The texts of the known fields, in order. */
  function Texts(fields: seq<Field>, ft: FiveTuple, ipText: Key -> string): seq<string> {
    if fields == [] then []
    else FieldText(Selected(fields[0], ft), ipText) + Texts(fields[1..], ft, ipText)
  }

  /** The value of a field at the front of b. */
  function ReadField(field: Field, b: Key): FieldValue
    requires |b| >= FieldByteSize(field)
  {
    match field
    case SrcIP => Address(b[..IPV6_BYTE_SIZE])
    case DstIP => Address(b[..IPV6_BYTE_SIZE])
    case SrcPort => Number(PortValue(b[0], b[1]))
    case DstPort => Number(PortValue(b[0], b[1]))
    case Protocol => Number(ByteValue(b[0]))
    case Unknown(_) => NoField
  }

  function Decoded(fields: seq<Field>, b: Key, ipText: Key -> string): seq<string>
    requires |b| >= Total(fields)
    decreases |fields|
  {
    if fields == [] then []
    else FieldText(ReadField(fields[0], b), ipText) + Decoded(fields[1..], b[FieldByteSize(fields[0])..], ipText)
  }

  /** What is still to be decoded from field k on. */
  function Remaining(fields: seq<Field>, k: nat, flow: Key, offset: nat, ipText: Key -> string): seq<string>
    requires k <= |fields| && offset <= |flow| && |flow| - offset >= Total(fields[k..])
  {
    Decoded(fields[k..], flow[offset..], ipText)
  }

  lemma RemainingCons(fields: seq<Field>, k: nat, flow: Key, offset: nat, ipText: Key -> string)
    requires k < |fields| && offset <= |flow| && |flow| - offset >= Total(fields[k..])
    ensures var n := FieldByteSize(fields[k]);
            && |flow| - offset - n >= Total(fields[k + 1..])
            && Remaining(fields, k, flow, offset, ipText)
               == FieldText(ReadField(fields[k], flow[offset..]), ipText)
                  + Remaining(fields, k + 1, flow, offset + n, ipText)
  {
    assert fields[k..][1..] == fields[k + 1..];
    assert flow[offset..][FieldByteSize(fields[k])..] == flow[offset + FieldByteSize(fields[k])..];
  }

  lemma {:induction false} RemainingEnds(fields: seq<Field>, flow: Key, offset: nat, ipText: Key -> string)
    requires offset <= |flow|
    ensures |flow| >= Total(fields) ==> Remaining(fields, 0, flow, 0, ipText) == Decoded(fields, flow, ipText)
    ensures Total(fields[|fields|..]) == 0 && Remaining(fields, |fields|, flow, offset, ipText) == []
  {
    assert flow[0..] == flow && fields[0..] == fields;
  }

  /** The loop over a running offset; too short a key is refused by the slicing of the source. */
  method DecodeFlow(flow: Key, fields: seq<Field>, ipText: Key -> string) returns (text: string)
    requires |flow| >= Total(fields)
    ensures text == Join(Decoded(fields, flow, ipText), ' ')
  {
    var parts := [];
    var offset := 0;
    var k := 0;
    RemainingEnds(fields, flow, 0, ipText);
    while k < |fields|
      invariant 0 <= k <= |fields| && 0 <= offset <= |flow|
      invariant |flow| - offset >= Total(fields[k..])
      invariant parts + Remaining(fields, k, flow, offset, ipText) == Decoded(fields, flow, ipText)
    {
      RemainingCons(fields, k, flow, offset, ipText);
      var part, next := DecodeField(flow, offset, fields[k], ipText);
      Regroup(parts, part, Remaining(fields, k + 1, flow, next, ipText));
      parts, offset := parts + part, next;
      k := k + 1;
    }
    RemainingEnds(fields, flow, offset, ipText);
    assert k == |fields| && parts + [] == parts;
    text := Join(parts, ' ');
  }

  /** One case of the loop. */
  method DecodeField(flow: Key, offset: nat, field: Field, ipText: Key -> string) returns (part: seq<string>, next: nat)
    requires offset + FieldByteSize(field) <= |flow|
    ensures next == offset + FieldByteSize(field)
    ensures part == FieldText(ReadField(field, flow[offset..]), ipText)
  {
    next := offset + FieldByteSize(field);
    match field {
      case SrcIP =>
        assert flow[offset..next] == flow[offset..][..IPV6_BYTE_SIZE];
        part := [ipText(flow[offset..next])];
      case DstIP =>
        assert flow[offset..next] == flow[offset..][..IPV6_BYTE_SIZE];
        part := [ipText(flow[offset..next])];
      case SrcPort =>
        part := [Itoa(PortValue(flow[offset], flow[offset + 1]))];
      case DstPort =>
        part := [Itoa(PortValue(flow[offset], flow[offset + 1]))];
      case Protocol =>
        part := [Itoa(ByteValue(flow[offset]))];
      case Unknown(_) =>
        part := [];
    }
  }

  /** A field read from the front of its own bytes is the value it was written from. */
  lemma ReadFieldOf(field: Field, ft: FiveTuple, tail: Key)
    requires |FieldBytes(field, ft)| == FieldByteSize(field)
    ensures ReadField(field, FieldBytes(field, ft) + tail) == Selected(field, ft)
  {
    ReadOwnBytes(field, ft);
    ReadIgnoresTail(field, FieldBytes(field, ft), tail);
  }

  lemma ReadOwnBytes(field: Field, ft: FiveTuple)
    requires |FieldBytes(field, ft)| == FieldByteSize(field)
    ensures ReadField(field, FieldBytes(field, ft)) == Selected(field, ft)
  {
    match field {
      case SrcIP => assert ft.srcIP[..IPV6_BYTE_SIZE] == ft.srcIP;
      case DstIP => assert ft.dstIP[..IPV6_BYTE_SIZE] == ft.dstIP;
      case SrcPort => PortRoundTrip(ft.srcPort);
      case DstPort => PortRoundTrip(ft.dstPort);
      case Protocol => ByteValueOf(ft.protocol);
      case Unknown(_) =>
    }
  }

  lemma ReadIgnoresTail(field: Field, b: Key, tail: Key)
    requires |b| == FieldByteSize(field)
    ensures ReadField(field, b + tail) == ReadField(field, b)
  {
    assert (b + tail)[..|b|] == b == b[..|b|];
  }

  /** DecodeFlow reads back the selected fields, in order. */
  lemma {:induction false} DecodedOfLayout(fields: seq<Field>, ft: FiveTuple, ipText: Key -> string)
    requires Full(fields, ft)
    ensures |Layout(fields, ft)| == Total(fields)
    ensures Decoded(fields, Layout(fields, ft), ipText) == Texts(fields, ft, ipText)
    decreases |fields|
  {
    if fields != [] {
      DecodedOfLayout(fields[1..], ft, ipText);
      var a, rest := FieldBytes(fields[0], ft), Layout(fields[1..], ft);
      ReadFieldOf(fields[0], ft, rest);
      assert (a + rest)[|a|..] == rest;
    }
  }

  // Fitting the pool's buffers.

  function Uses(fields: seq<Field>, field: Field): nat {
    if fields == [] then 0 else (if fields[0] == field then 1 else 0) + Uses(fields[1..], field)
  }

  lemma {:induction false} TotalByUses(fields: seq<Field>)
    ensures Total(fields) == 16 * (Uses(fields, SrcIP) + Uses(fields, DstIP))
                             + 2 * (Uses(fields, SrcPort) + Uses(fields, DstPort)) + Uses(fields, Protocol)
  {
    if fields != [] {
      TotalByUses(fields[1..]);
    }
  }

  lemma {:induction false} UsedOnce(fields: seq<Field>, field: Field)
    requires forall i, j :: 0 <= i < j < |fields| ==> fields[i] != fields[j]
    ensures Uses(fields, field) == if field in fields then 1 else 0
  {
    if fields != [] {
      UsedOnce(fields[1..], field);
    }
  }

  /** A key over distinct fields fits a pooled buffer, and the full five-tuple just does. */
  lemma {:induction false} DistinctFieldsFit(fields: seq<Field>)
    requires forall i, j :: 0 <= i < j < |fields| ==> fields[i] != fields[j]
    ensures Total(fields) <= MAX_FIELD_SIZE
    ensures (forall f :: f in [SrcIP, DstIP, SrcPort, DstPort, Protocol] ==> f in fields) ==>
              Total(fields) == MAX_FIELD_SIZE
  {
    TotalByUses(fields);
    UsedOnce(fields, SrcIP);
    UsedOnce(fields, DstIP);
    UsedOnce(fields, SrcPort);
    UsedOnce(fields, DstPort);
    UsedOnce(fields, Protocol);
  }
}
