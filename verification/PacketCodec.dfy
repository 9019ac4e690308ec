/** Packets on their way through the wire (packetcodec.go): the model's packet, its Thrift form, and the
    bytes, seen as tokens. */
module PacketCodec {
  import opened Words
  import opened Outcomes
  import opened Packets
  import opened ThriftProtocol
  import opened TrafficCodec
  import opened TrafficMeaning

  /** Conversion to int64, which drops the higher bits. */
  function ToInt64(x: int): int64 {
    var r := x % TWO_64;
    if r < TWO_63 then r else r - TWO_64
  }

  predicate IsInt64(x: int) {
    -TWO_63 <= x < TWO_63
  }

  /** Timestamp.UnixNano() wraps around outside of int64. */
  function PacketToThrift(p: PacketInfo): WirePacket {
    WirePacket(ToInt64(p.timestamp),
               Some(WireTuple(p.fiveTuple.srcIP, p.fiveTuple.dstIP,
                              p.fiveTuple.srcPort, p.fiveTuple.dstPort, p.fiveTuple.protocol)),
               ToInt64(p.length))
  }

  /** Ports and protocol are cut to their width. */
  function PacketFromThrift(w: WirePacket): Result<PacketInfo> {
    if w.fiveTuple.None? then Err("nil five tuple")
    else
      var t := w.fiveTuple.value;
      Ok(PacketInfo(w.timestampUnixNano,
                    FiveTuple(t.srcIP, t.dstIP, t.srcPort % 0x1_0000, t.dstPort % 0x1_0000, t.protocol % 0x100),
                    w.length))
  }

  /** The wire image of a packet, token by token: field numbers, types and values. */
  lemma WireImage(p: PacketInfo)
    ensures Emit(PacketValue(PacketToThrift(p))) ==
            [StructBegin]
            + [FieldBegin(TType.I64, 1), I64Token(ToInt64(p.timestamp)), FieldEnd]
            + [FieldBegin(STRUCT, 2), StructBegin]
            + [FieldBegin(STRING, 1), BinaryToken(p.fiveTuple.srcIP), FieldEnd]
            + [FieldBegin(STRING, 2), BinaryToken(p.fiveTuple.dstIP), FieldEnd]
            + [FieldBegin(TType.I32, 3), I32Token(p.fiveTuple.srcPort), FieldEnd]
            + [FieldBegin(TType.I32, 4), I32Token(p.fiveTuple.dstPort), FieldEnd]
            + [FieldBegin(TType.I32, 5), I32Token(p.fiveTuple.protocol), FieldEnd]
            + [FieldStop, StructEnd, FieldEnd]
            + [FieldBegin(TType.I64, 3), I64Token(p.length), FieldEnd]
            + [FieldStop, StructEnd]
  {
    var w := PacketToThrift(p);
    TupleTokens(w.fiveTuple);
    PacketTokens(w);
  }

  /** What becomes of a packet that was read, field by field: ports and protocol lose their higher bits. */
  lemma ReadFields(w: WirePacket)
    requires w.fiveTuple.Some?
    ensures var r := PacketFromThrift(w);
            && r.Ok? && r.value.timestamp == w.timestampUnixNano && r.value.length == w.length
            && r.value.fiveTuple.srcIP == w.fiveTuple.value.srcIP && r.value.fiveTuple.dstIP == w.fiveTuple.value.dstIP
            && (w.fiveTuple.value.srcPort - r.value.fiveTuple.srcPort) % 0x1_0000 == 0
            && (w.fiveTuple.value.dstPort - r.value.fiveTuple.dstPort) % 0x1_0000 == 0
            && (w.fiveTuple.value.protocol - r.value.fiveTuple.protocol) % 0x100 == 0
  {
  }

  /** A nil packet is refused. */
  method MarshalPacketInfo(p: Option<PacketInfo>) returns (r: Result<seq<Token>>)
    ensures r == if p.None? then Err("nil packet info") else Ok(Emit(PacketValue(PacketToThrift(p.value))))
  {
    if p.None? {
      return Err("nil packet info");
    }
    var oprot := new Output();
    WritePacket(oprot, PacketToThrift(p.value));
    assert [] + Emit(PacketValue(PacketToThrift(p.value))) == Emit(PacketValue(PacketToThrift(p.value)));
    r := Ok(oprot.tokens);
  }

  /** What a token stream decodes to. */
  function Decoded(s: seq<Token>): Result<PacketInfo> {
    var w := ParsePacket(s);
    if w.Err? then Err("failed to unmarshal packet info: " + w.message) else PacketFromThrift(w.value.0)
  }

  method UnmarshalPacketInfo(data: seq<Token>) returns (r: Result<PacketInfo>)
    ensures r == Decoded(data)
  {
    var iprot := new Input(data);
    var w := ReadPacket(iprot);
    if w.Err? {
      return Err("failed to unmarshal packet info: " + w.message);
    }
    r := PacketFromThrift(w.value);
  }

  lemma ToInt64Exact(x: int)
    ensures ToInt64(x) == x <==> IsInt64(x)
    ensures ToInt64(ToInt64(x)) == ToInt64(x)
  {
  }

  /** Decoding an encoded packet gives back its ports, protocol and addresses always, and the whole packet
      exactly when its time in nanoseconds and its length fit an int64. */
  lemma RoundTrip(p: PacketInfo)
    ensures var d := Decoded(Emit(PacketValue(PacketToThrift(p))));
            && d.Ok? && d.value.fiveTuple == p.fiveTuple
            && (d.value == p <==> IsInt64(p.timestamp))
  {
    var w := PacketToThrift(p);
    WriteThenRead(w, []);
    assert Emit(PacketValue(w)) + [] == Emit(PacketValue(w));
    ToInt64Exact(p.timestamp);
    ToInt64Exact(p.length);
  }

  /** Decoding what any peer sent: it succeeds exactly when PacketOf does, and the packet is the one that
      PacketOf names, with ports and protocol cut to their width. */
  lemma {:induction false} DecodedOfPeer(fs: Fields, tail: seq<Token>)
    requires FieldsProper(fs)
    ensures var d, p := Decoded(Emit(Struct(fs)) + tail), PacketOf(fs);
            && (d.Ok? <==> p.Ok?)
            && (d.Ok? ==> p.value.fiveTuple.Some? && d == PacketFromThrift(p.value))
  {
    PacketReadBack(fs, tail);
    PacketReadsIff(fs);
  }

  /** Encoding again what was decoded loses nothing more: the ports that did not fit are gone for good. */
  lemma {:induction false} SecondTripIsExact(fs: Fields, tail: seq<Token>)
    requires FieldsProper(fs) && PacketOf(fs).Ok?
    ensures var d := Decoded(Emit(Struct(fs)) + tail);
            d.Ok? && Decoded(Emit(PacketValue(PacketToThrift(d.value)))) == d
  {
    DecodedOfPeer(fs, tail);
    RoundTrip(Decoded(Emit(Struct(fs)) + tail).value);
  }
}
