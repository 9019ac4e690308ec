/** The generated reader and writer of packets (traffic.go), over token streams. */
module TrafficCodec {
  import opened Words
  import opened Outcomes
  import opened ThriftProtocol

  datatype WireTuple = WireTuple(srcIP: Key, dstIP: Key, srcPort: int32, dstPort: int32, protocol: int32)

  /** fiveTuple is a pointer, so it may be nil. */
  datatype WirePacket = WirePacket(timestampUnixNano: int64, fiveTuple: Option<WireTuple>, length: int64)

  // Writing.

  class Output {
    var tokens: seq<Token>

    constructor ()
      ensures tokens == []
    {
      tokens := [];
    }

    method Put(token: Token)
      modifies this
      ensures tokens == old(tokens) + [token]
    {
      tokens := tokens + [token];
    }

    method WriteBinaryField(id: int, b: Key)
      modifies this
      ensures tokens == old(tokens) + [FieldBegin(STRING, id), BinaryToken(b), FieldEnd]
    {
      Put(FieldBegin(STRING, id));
      Put(BinaryToken(b));
      Put(FieldEnd);
    }

    method WriteI32Field(id: int, n: int32)
      modifies this
      ensures tokens == old(tokens) + [FieldBegin(TType.I32, id), I32Token(n), FieldEnd]
    {
      Put(FieldBegin(TType.I32, id));
      Put(I32Token(n));
      Put(FieldEnd);
    }

    method WriteI64Field(id: int, n: int64)
      modifies this
      ensures tokens == old(tokens) + [FieldBegin(TType.I64, id), I64Token(n), FieldEnd]
    {
      Put(FieldBegin(TType.I64, id));
      Put(I64Token(n));
      Put(FieldEnd);
    }
  }

  /** What a five-tuple is on the wire; a nil one is an empty struct. */
  function TupleValue(t: Option<WireTuple>): Value {
    if t.None? then Struct(Stop)
    else
      var p := t.value;
      Struct(Field(1, Binary(p.srcIP), Field(2, Binary(p.dstIP), Field(3, Int32(p.srcPort),
             Field(4, Int32(p.dstPort), Field(5, Int32(p.protocol), Stop))))))
  }

  function PacketValue(p: WirePacket): Value {
    Struct(Field(1, Int64(p.timestampUnixNano), Field(2, TupleValue(p.fiveTuple), Field(3, Int64(p.length), Stop))))
  }

  method WriteTuple(oprot: Output, t: Option<WireTuple>)
    modifies oprot
    ensures oprot.tokens == old(oprot.tokens) + Emit(TupleValue(t))
  {
    oprot.Put(StructBegin);
    if t.Some? {
      oprot.WriteBinaryField(1, t.value.srcIP);
      oprot.WriteBinaryField(2, t.value.dstIP);
      oprot.WriteI32Field(3, t.value.srcPort);
      oprot.WriteI32Field(4, t.value.dstPort);
      oprot.WriteI32Field(5, t.value.protocol);
    }
    oprot.Put(FieldStop);
    oprot.Put(StructEnd);
    TupleTokens(t);
  }

  lemma {:induction false} LeafField(id: int, v: Value, rest: Fields)
    requires v.Int32? || v.Int64? || v.Binary?
    ensures EmitFields(Field(id, v, rest)) == [FieldBegin(TypeOf(v), id), Emit(v)[0], FieldEnd] + EmitFields(rest)
  {
  }

  lemma TupleTokens(t: Option<WireTuple>)
    ensures t.None? ==> Emit(TupleValue(t)) == [StructBegin, FieldStop, StructEnd]
    ensures t.Some? ==>
              var p := t.value;
              Emit(TupleValue(t)) == [StructBegin]
                + [FieldBegin(STRING, 1), BinaryToken(p.srcIP), FieldEnd]
                + [FieldBegin(STRING, 2), BinaryToken(p.dstIP), FieldEnd]
                + [FieldBegin(TType.I32, 3), I32Token(p.srcPort), FieldEnd]
                + [FieldBegin(TType.I32, 4), I32Token(p.dstPort), FieldEnd]
                + [FieldBegin(TType.I32, 5), I32Token(p.protocol), FieldEnd] + [FieldStop] + [StructEnd]
  {
    if t.Some? {
      var p := t.value;
      var f5 := Field(5, Int32(p.protocol), Stop);
      var f4 := Field(4, Int32(p.dstPort), f5);
      var f3 := Field(3, Int32(p.srcPort), f4);
      var f2 := Field(2, Binary(p.dstIP), f3);
      LeafField(5, Int32(p.protocol), Stop);
      LeafField(4, Int32(p.dstPort), f5);
      LeafField(3, Int32(p.srcPort), f4);
      LeafField(2, Binary(p.dstIP), f3);
      LeafField(1, Binary(p.srcIP), f2);
    }
  }

  method WritePacket(oprot: Output, p: WirePacket)
    modifies oprot
    ensures oprot.tokens == old(oprot.tokens) + Emit(PacketValue(p))
  {
    oprot.Put(StructBegin);
    oprot.WriteI64Field(1, p.timestampUnixNano);
    oprot.Put(FieldBegin(STRUCT, 2));
    WriteTuple(oprot, p.fiveTuple);
    oprot.Put(FieldEnd);
    oprot.WriteI64Field(3, p.length);
    oprot.Put(FieldStop);
    oprot.Put(StructEnd);
    PacketTokens(p);
  }

  lemma PacketTokens(p: WirePacket)
    ensures Emit(PacketValue(p)) == [StructBegin] + [FieldBegin(TType.I64, 1), I64Token(p.timestampUnixNano), FieldEnd]
              + [FieldBegin(STRUCT, 2)] + Emit(TupleValue(p.fiveTuple)) + [FieldEnd]
              + [FieldBegin(TType.I64, 3), I64Token(p.length), FieldEnd] + [FieldStop] + [StructEnd]
  {
    var f3 := Field(3, Int64(p.length), Stop);
    var f2 := Field(2, TupleValue(p.fiveTuple), f3);
    LeafField(3, Int64(p.length), Stop);
    assert EmitFields(f2) == [FieldBegin(STRUCT, 2)] + Emit(TupleValue(p.fiveTuple)) + [FieldEnd] + EmitFields(f3);
    LeafField(1, Int64(p.timestampUnixNano), f2);
  }

  // Reading, as functions of the tokens that are left.

  function GetBinary(s: seq<Token>): Result<(Key, seq<Token>)> {
    if s != [] && s[0].BinaryToken? then Ok((s[0].b, s[1..])) else Err("unexpected token")
  }

  function GetI32(s: seq<Token>): Result<(int32, seq<Token>)> {
    if s != [] && s[0].I32Token? then Ok((s[0].i32, s[1..])) else Err("unexpected token")
  }

  function GetI64(s: seq<Token>): Result<(int64, seq<Token>)> {
    if s != [] && s[0].I64Token? then Ok((s[0].i64, s[1..])) else Err("unexpected token")
  }

  /** The fields read so far; a field that is set is Some. */
  datatype TupleSoFar = TupleSoFar(srcIP: Option<Key>, dstIP: Option<Key>,
                                   srcPort: Option<int32>, dstPort: Option<int32>,
                                   protocol: Option<int32>)

  const NO_FIELDS := TupleSoFar(None, None, None, None, None)

  /** One field after its header: read when number and type fit, else skipped. */
  function TupleField(acc: TupleSoFar, t: TType, id: int, s: seq<Token>): (r: Result<(TupleSoFar, seq<Token>)>)
    ensures r.Ok? ==> |r.value.1| < |s|
  {
    if id == 1 && t == STRING then
      var v := GetBinary(s); if v.Err? then Err(v.message) else Ok((acc.(srcIP := Some(v.value.0)), v.value.1))
    else if id == 2 && t == STRING then
      var v := GetBinary(s); if v.Err? then Err(v.message) else Ok((acc.(dstIP := Some(v.value.0)), v.value.1))
    else if id == 3 && t == TType.I32 then
      var v := GetI32(s); if v.Err? then Err(v.message) else Ok((acc.(srcPort := Some(v.value.0)), v.value.1))
    else if id == 4 && t == TType.I32 then
      var v := GetI32(s); if v.Err? then Err(v.message) else Ok((acc.(dstPort := Some(v.value.0)), v.value.1))
    else if id == 5 && t == TType.I32 then
      var v := GetI32(s); if v.Err? then Err(v.message) else Ok((acc.(protocol := Some(v.value.0)), v.value.1))
    else
      var v := Skip(t, s); if v.Err? then Err(v.message) else Ok((acc, v.value))
  }

  function TupleLoop(acc: TupleSoFar, s: seq<Token>): (r: Result<(TupleSoFar, seq<Token>)>)
    ensures r.Ok? ==> |r.value.1| < |s|
    decreases |s|
  {
    if s == [] then Err("end of input")
    else if s[0] == FieldStop then Ok((acc, s[1..]))
    else if !s[0].FieldBegin? then Err("unexpected token")
    else
      var v := TupleField(acc, s[0].t, s[0].id, s[1..]);
      if v.Err? then v
      else
        var ended := Expect(FieldEnd, v.value.1);
        if ended.Err? then Err(ended.message) else TupleLoop(v.value.0, ended.value)
  }

  /** The required-field checks, in order. */
  function CompleteTuple(acc: TupleSoFar): Result<WireTuple> {
    if acc.srcIP.None? then Err("Required field SrcIP is not set")
    else if acc.dstIP.None? then Err("Required field DstIP is not set")
    else if acc.srcPort.None? then Err("Required field SrcPort is not set")
    else if acc.dstPort.None? then Err("Required field DstPort is not set")
    else if acc.protocol.None? then Err("Required field Protocol is not set")
    else Ok(WireTuple(acc.srcIP.value, acc.dstIP.value, acc.srcPort.value, acc.dstPort.value, acc.protocol.value))
  }

  function ParseTuple(s: seq<Token>): (r: Result<(WireTuple, seq<Token>)>)
    ensures r.Ok? ==> |r.value.1| < |s|
  {
    var began := Expect(StructBegin, s);
    if began.Err? then Err(began.message)
    else
      var fields := TupleLoop(NO_FIELDS, began.value);
      if fields.Err? then Err(fields.message)
      else
        var ended := Expect(StructEnd, fields.value.1);
        if ended.Err? then Err(ended.message)
        else
          var t := CompleteTuple(fields.value.0);
          if t.Err? then Err(t.message) else Ok((t.value, ended.value))
  }

  datatype PacketSoFar = PacketSoFar(timestampUnixNano: Option<int64>, fiveTuple: Option<WireTuple>,
                                     length: Option<int64>)

  const NO_PACKET_FIELDS := PacketSoFar(None, None, None)

  function PacketField(acc: PacketSoFar, t: TType, id: int, s: seq<Token>): (r: Result<(PacketSoFar, seq<Token>)>)
    ensures r.Ok? ==> |r.value.1| < |s|
  {
    if id == 1 && t == TType.I64 then
      var v := GetI64(s); if v.Err? then Err(v.message) else Ok((acc.(timestampUnixNano := Some(v.value.0)), v.value.1))
    else if id == 2 && t == STRUCT then
      var v := ParseTuple(s); if v.Err? then Err(v.message) else Ok((acc.(fiveTuple := Some(v.value.0)), v.value.1))
    else if id == 3 && t == TType.I64 then
      var v := GetI64(s); if v.Err? then Err(v.message) else Ok((acc.(length := Some(v.value.0)), v.value.1))
    else
      var v := Skip(t, s); if v.Err? then Err(v.message) else Ok((acc, v.value))
  }

  function PacketLoop(acc: PacketSoFar, s: seq<Token>): (r: Result<(PacketSoFar, seq<Token>)>)
    ensures r.Ok? ==> |r.value.1| < |s|
    decreases |s|
  {
    if s == [] then Err("end of input")
    else if s[0] == FieldStop then Ok((acc, s[1..]))
    else if !s[0].FieldBegin? then Err("unexpected token")
    else
      var v := PacketField(acc, s[0].t, s[0].id, s[1..]);
      if v.Err? then v
      else
        var ended := Expect(FieldEnd, v.value.1);
        if ended.Err? then Err(ended.message) else PacketLoop(v.value.0, ended.value)
  }

  function CompletePacket(acc: PacketSoFar): Result<WirePacket> {
    if acc.timestampUnixNano.None? then Err("Required field TimestampUnixNano is not set")
    else if acc.fiveTuple.None? then Err("Required field FiveTuple is not set")
    else if acc.length.None? then Err("Required field Length is not set")
    else Ok(WirePacket(acc.timestampUnixNano.value, acc.fiveTuple, acc.length.value))
  }

  function ParsePacket(s: seq<Token>): Result<(WirePacket, seq<Token>)> {
    var began := Expect(StructBegin, s);
    if began.Err? then Err(began.message)
    else
      var fields := PacketLoop(NO_PACKET_FIELDS, began.value);
      if fields.Err? then Err(fields.message)
      else
        var ended := Expect(StructEnd, fields.value.1);
        if ended.Err? then Err(ended.message)
        else
          var p := CompletePacket(fields.value.0);
          if p.Err? then Err(p.message) else Ok((p.value, ended.value))
  }

  // Reading, as the loops over a protocol object.

  datatype Head = NoMore | Head(t: TType, id: int)

  class Input {
    var rest: seq<Token>

    constructor (tokens: seq<Token>)
      ensures rest == tokens
    {
      rest := tokens;
    }

    method Accept(token: Token) returns (r: Result<()>)
      modifies this
      ensures var e := Expect(token, old(rest));
              if e.Ok? then r.Ok? && rest == e.value else r == Err(e.message)
    {
      if |rest| == 0 || rest[0] != token {
        return Err("unexpected token");
      }
      rest := rest[1..];
      r := Ok(());
    }

    method ReadFieldBegin() returns (r: Result<Head>)
      modifies this
      ensures var s := old(rest);
              if s == [] then r == Err("end of input")
              else if s[0] == FieldStop then r == Ok(NoMore) && rest == s[1..]
              else if s[0].FieldBegin? then r == Ok(Head.Head(s[0].t, s[0].id)) && rest == s[1..]
              else r == Err("unexpected token")
    {
      if |rest| == 0 {
        return Err("end of input");
      }
      if rest[0] == FieldStop {
        r := Ok(NoMore);
      } else if rest[0].FieldBegin? {
        r := Ok(Head.Head(rest[0].t, rest[0].id));
      } else {
        return Err("unexpected token");
      }
      rest := rest[1..];
    }

    method ReadBinary() returns (r: Result<Key>)
      modifies this
      ensures var g := GetBinary(old(rest));
              if g.Ok? then r == Ok(g.value.0) && rest == g.value.1 else r == Err(g.message)
    {
      if |rest| == 0 || !rest[0].BinaryToken? {
        return Err("unexpected token");
      }
      r := Ok(rest[0].b);
      rest := rest[1..];
    }

    method ReadI32() returns (r: Result<int32>)
      modifies this
      ensures var g := GetI32(old(rest));
              if g.Ok? then r == Ok(g.value.0) && rest == g.value.1 else r == Err(g.message)
    {
      if |rest| == 0 || !rest[0].I32Token? {
        return Err("unexpected token");
      }
      r := Ok(rest[0].i32);
      rest := rest[1..];
    }

    method ReadI64() returns (r: Result<int64>)
      modifies this
      ensures var g := GetI64(old(rest));
              if g.Ok? then r == Ok(g.value.0) && rest == g.value.1 else r == Err(g.message)
    {
      if |rest| == 0 || !rest[0].I64Token? {
        return Err("unexpected token");
      }
      r := Ok(rest[0].i64);
      rest := rest[1..];
    }

    method SkipValue(t: TType) returns (r: Result<()>)
      modifies this
      ensures var g := Skip(t, old(rest));
              if g.Ok? then r.Ok? && rest == g.value else r == Err(g.message)
    {
      var g := Skip(t, rest);
      if g.Err? {
        return Err(g.message);
      }
      rest := g.value;
      r := Ok(());
    }
  }

  function Set<T>(isset: bool, value: T): Option<T> {
    if isset then Some(value) else None
  }

  /** The struct that Read fills, with the local isset flags. */
  datatype TupleVars = TupleVars(p: WireTuple, issetSrcIP: bool, issetDstIP: bool,
                                 issetSrcPort: bool, issetDstPort: bool,
                                 issetProtocol: bool) {
    function SoFar(): TupleSoFar {
      TupleSoFar(Set(issetSrcIP, p.srcIP), Set(issetDstIP, p.dstIP), Set(issetSrcPort, p.srcPort),
                 Set(issetDstPort, p.dstPort), Set(issetProtocol, p.protocol))
    }
  }

  /** The switch in the loop of FiveTuple.Read. */
  method ReadTupleField(iprot: Input, before: TupleVars, t: TType, id: int) returns (r: Result<TupleVars>)
    modifies iprot
    ensures var g := TupleField(before.SoFar(), t, id, old(iprot.rest));
            if g.Ok? then r.Ok? && r.value.SoFar() == g.value.0 && iprot.rest == g.value.1 else r == Err(g.message)
  {
    if id == 1 && t == STRING {
      var v := iprot.ReadBinary();
      if v.Err? {
        return Err(v.message);
      }
      r := Ok(before.(p := before.p.(srcIP := v.value), issetSrcIP := true));
    } else if id == 2 && t == STRING {
      var v := iprot.ReadBinary();
      if v.Err? {
        return Err(v.message);
      }
      r := Ok(before.(p := before.p.(dstIP := v.value), issetDstIP := true));
    } else if id == 3 && t == TType.I32 {
      var v := iprot.ReadI32();
      if v.Err? {
        return Err(v.message);
      }
      r := Ok(before.(p := before.p.(srcPort := v.value), issetSrcPort := true));
    } else if id == 4 && t == TType.I32 {
      var v := iprot.ReadI32();
      if v.Err? {
        return Err(v.message);
      }
      r := Ok(before.(p := before.p.(dstPort := v.value), issetDstPort := true));
    } else if id == 5 && t == TType.I32 {
      var v := iprot.ReadI32();
      if v.Err? {
        return Err(v.message);
      }
      r := Ok(before.(p := before.p.(protocol := v.value), issetProtocol := true));
    } else {
      var skipped := iprot.SkipValue(t);
      if skipped.Err? {
        return Err(skipped.message);
      }
      r := Ok(before);
    }
  }

  method ReadTupleFields(iprot: Input) returns (r: Result<TupleVars>)
    modifies iprot
    ensures var g := TupleLoop(NO_FIELDS, old(iprot.rest));
            if g.Ok? then r.Ok? && r.value.SoFar() == g.value.0 && iprot.rest == g.value.1 else r == Err(g.message)
  {
    var vars := TupleVars(WireTuple([], [], 0, 0, 0), false, false, false, false, false);
    while true
      invariant TupleLoop(vars.SoFar(), iprot.rest) == TupleLoop(NO_FIELDS, old(iprot.rest))
      decreases |iprot.rest|
    {
      var head := iprot.ReadFieldBegin();
      if head.Err? {
        return Err(head.message);
      }
      if head.value.NoMore? {
        return Ok(vars);
      }
      var field := ReadTupleField(iprot, vars, head.value.t, head.value.id);
      if field.Err? {
        return Err(field.message);
      }
      vars := field.value;
      var ended := iprot.Accept(FieldEnd);
      if ended.Err? {
        return Err(ended.message);
      }
    }
  }

  /** FiveTuple.Read. */
  method ReadTuple(iprot: Input) returns (r: Result<WireTuple>)
    modifies iprot
    ensures var g := ParseTuple(old(iprot.rest));
            if g.Ok? then r == Ok(g.value.0) && iprot.rest == g.value.1 else r == Err(g.message)
  {
    var began := iprot.Accept(StructBegin);
    if began.Err? {
      return Err(began.message);
    }
    var vars := ReadTupleFields(iprot);
    if vars.Err? {
      return Err(vars.message);
    }
    var ended := iprot.Accept(StructEnd);
    if ended.Err? {
      return Err(ended.message);
    }
    var v := vars.value;
    if !v.issetSrcIP {
      return Err("Required field SrcIP is not set");
    }
    if !v.issetDstIP {
      return Err("Required field DstIP is not set");
    }
    if !v.issetSrcPort {
      return Err("Required field SrcPort is not set");
    }
    if !v.issetDstPort {
      return Err("Required field DstPort is not set");
    }
    if !v.issetProtocol {
      return Err("Required field Protocol is not set");
    }
    r := Ok(v.p);
  }

  datatype PacketVars = PacketVars(p: WirePacket, issetTimestampUnixNano: bool, issetFiveTuple: bool,
                                   issetLength: bool) {
    function SoFar(): PacketSoFar {
      PacketSoFar(Set(issetTimestampUnixNano, p.timestampUnixNano), if issetFiveTuple then p.fiveTuple else None,
                  Set(issetLength, p.length))
    }
  }

  /** The switch in the loop of PacketInfo.Read. */
  method ReadPacketField(iprot: Input, before: PacketVars, t: TType, id: int) returns (r: Result<PacketVars>)
    requires before.issetFiveTuple ==> before.p.fiveTuple.Some?
    modifies iprot
    ensures var g := PacketField(before.SoFar(), t, id, old(iprot.rest));
            if g.Ok? then r.Ok? && r.value.SoFar() == g.value.0 && iprot.rest == g.value.1 else r == Err(g.message)
    ensures r.Ok? && r.value.issetFiveTuple ==> r.value.p.fiveTuple.Some?
  {
    if id == 1 && t == TType.I64 {
      var v := iprot.ReadI64();
      if v.Err? {
        return Err(v.message);
      }
      r := Ok(before.(p := before.p.(timestampUnixNano := v.value), issetTimestampUnixNano := true));
    } else if id == 2 && t == STRUCT {
      var v := ReadTuple(iprot);
      if v.Err? {
        return Err(v.message);
      }
      r := Ok(before.(p := before.p.(fiveTuple := Some(v.value)), issetFiveTuple := true));
    } else if id == 3 && t == TType.I64 {
      var v := iprot.ReadI64();
      if v.Err? {
        return Err(v.message);
      }
      r := Ok(before.(p := before.p.(length := v.value), issetLength := true));
    } else {
      var skipped := iprot.SkipValue(t);
      if skipped.Err? {
        return Err(skipped.message);
      }
      r := Ok(before);
    }
  }

  method ReadPacketFields(iprot: Input) returns (r: Result<PacketVars>)
    modifies iprot
    ensures var g := PacketLoop(NO_PACKET_FIELDS, old(iprot.rest));
            if g.Ok? then r.Ok? && r.value.SoFar() == g.value.0 && iprot.rest == g.value.1 else r == Err(g.message)
    ensures r.Ok? && r.value.issetFiveTuple ==> r.value.p.fiveTuple.Some?
  {
    var vars := PacketVars(WirePacket(0, None, 0), false, false, false);
    while true
      invariant PacketLoop(vars.SoFar(), iprot.rest) == PacketLoop(NO_PACKET_FIELDS, old(iprot.rest))
      invariant vars.issetFiveTuple ==> vars.p.fiveTuple.Some?
      decreases |iprot.rest|
    {
      var head := iprot.ReadFieldBegin();
      if head.Err? {
        return Err(head.message);
      }
      if head.value.NoMore? {
        return Ok(vars);
      }
      var field := ReadPacketField(iprot, vars, head.value.t, head.value.id);
      if field.Err? {
        return Err(field.message);
      }
      vars := field.value;
      var ended := iprot.Accept(FieldEnd);
      if ended.Err? {
        return Err(ended.message);
      }
    }
  }

  /** PacketInfo.Read. */
  method ReadPacket(iprot: Input) returns (r: Result<WirePacket>)
    modifies iprot
    ensures var g := ParsePacket(old(iprot.rest));
            if g.Ok? then r == Ok(g.value.0) && iprot.rest == g.value.1 else r == Err(g.message)
  {
    var began := iprot.Accept(StructBegin);
    if began.Err? {
      return Err(began.message);
    }
    var vars := ReadPacketFields(iprot);
    if vars.Err? {
      return Err(vars.message);
    }
    var ended := iprot.Accept(StructEnd);
    if ended.Err? {
      return Err(ended.message);
    }
    var v := vars.value;
    if !v.issetTimestampUnixNano {
      return Err("Required field TimestampUnixNano is not set");
    }
    if !v.issetFiveTuple {
      return Err("Required field FiveTuple is not set");
    }
    if !v.issetLength {
      return Err("Required field Length is not set");
    }
    r := Ok(v.p);
  }
}
