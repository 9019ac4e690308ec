/** What reading a packet means for any struct a peer may send: which fields count, and that nothing else
    matters. */
module TrafficMeaning {
  import opened Words
  import opened Outcomes
  import opened ThriftProtocol
  import opened TrafficCodec

  /** The last field with this number and type. */
  function Last(fs: Fields, id: int, t: TType): Option<Value> {
    match fs
    case Stop => None
    case Field(i, v, rest) =>
      var later := Last(rest, id, t);
      if later.Some? then later else if i == id && TypeOf(v) == t then Some(v) else None
  }

  lemma {:induction false} LastHasType(fs: Fields, id: int, t: TType)
    requires FieldsProper(fs)
    ensures Last(fs, id, t).Some? ==> Proper(Last(fs, id, t).value) && TypeOf(Last(fs, id, t).value) == t
  {
    match fs {
      case Stop =>
      case Field(i, v, rest) => LastHasType(rest, id, t);
    }
  }

  function AsBinary(v: Option<Value>): Option<Key> {
    if v.Some? && v.value.Binary? then Some(v.value.b) else None
  }

  function AsInt32(v: Option<Value>): Option<int32> {
    if v.Some? && v.value.Int32? then Some(v.value.i32) else None
  }

  function AsInt64(v: Option<Value>): Option<int64> {
    if v.Some? && v.value.Int64? then Some(v.value.i64) else None
  }

  function Later<T>(earlier: Option<T>, later: Option<T>): Option<T> {
    if later.Some? then later else earlier
  }

  /** A five-tuple's fields: the last of each, over what was set before. */
  function TupleFields(acc: TupleSoFar, fs: Fields): TupleSoFar {
    TupleSoFar(Later(acc.srcIP, AsBinary(Last(fs, 1, STRING))), Later(acc.dstIP, AsBinary(Last(fs, 2, STRING))),
               Later(acc.srcPort, AsInt32(Last(fs, 3, TType.I32))), Later(acc.dstPort, AsInt32(Last(fs, 4, TType.I32))),
               Later(acc.protocol, AsInt32(Last(fs, 5, TType.I32))))
  }

  /** What a struct stands for as a five-tuple. */
  function TupleOf(fs: Fields): Result<WireTuple> {
    CompleteTuple(TupleFields(NO_FIELDS, fs))
  }

  lemma {:induction false} LeafEmitted(v: Value, tail: seq<Token>)
    requires v.Int32? || v.Int64? || v.Binary?
    ensures v.Binary? ==> GetBinary(Emit(v) + tail) == Ok((v.b, tail))
    ensures v.Int32? ==> GetI32(Emit(v) + tail) == Ok((v.i32, tail))
    ensures v.Int64? ==> GetI64(Emit(v) + tail) == Ok((v.i64, tail))
  {
    assert (Emit(v) + tail)[1..] == tail;
  }

  /** What one field does to the fields so far. */
  function OneTupleField(acc: TupleSoFar, id: int, v: Value): TupleSoFar {
    if id == 1 && v.Binary? then acc.(srcIP := Some(v.b))
    else if id == 2 && v.Binary? then acc.(dstIP := Some(v.b))
    else if id == 3 && v.Int32? then acc.(srcPort := Some(v.i32))
    else if id == 4 && v.Int32? then acc.(dstPort := Some(v.i32))
    else if id == 5 && v.Int32? then acc.(protocol := Some(v.i32))
    else acc
  }

  lemma {:induction false} TupleFieldEmitted(acc: TupleSoFar, id: int, v: Value, tail: seq<Token>)
    requires Proper(v)
    ensures TupleField(acc, TypeOf(v), id, Emit(v) + tail) == Ok((OneTupleField(acc, id, v), tail))
  {
    if v.Binary? || v.Int32? {
      LeafEmitted(v, tail);
    }
    SkipEmitted(v, tail);
  }

  lemma {:induction false} TupleFieldsCons(acc: TupleSoFar, id: int, v: Value, rest: Fields)
    requires Proper(v) && FieldsProper(rest)
    ensures TupleFields(OneTupleField(acc, id, v), rest) == TupleFields(acc, Field(id, v, rest))
  {
    LastHasType(rest, 1, STRING);
    LastHasType(rest, 2, STRING);
    LastHasType(rest, 3, TType.I32);
    LastHasType(rest, 4, TType.I32);
    LastHasType(rest, 5, TType.I32);
  }

  lemma {:induction false} TupleLoopEmitted(acc: TupleSoFar, fs: Fields, tail: seq<Token>)
    requires FieldsProper(fs)
    ensures TupleLoop(acc, EmitFields(fs) + tail) == Ok((TupleFields(acc, fs), tail))
    decreases fs
  {
    var s := EmitFields(fs) + tail;
    match fs {
      case Stop =>
        assert s[1..] == tail;
      case Field(id, v, rest) =>
        FieldsRegrouped(id, v, rest, tail);
        var after := [FieldEnd] + (EmitFields(rest) + tail);
        assert s[1..] == Emit(v) + after;
        TupleFieldEmitted(acc, id, v, after);
        ExpectEmitted(FieldEnd, EmitFields(rest) + tail);
        TupleLoopEmitted(OneTupleField(acc, id, v), rest, tail);
        TupleFieldsCons(acc, id, v, rest);
    }
  }

  /** FiveTuple.Read on any struct: the last field of each number and right type, or an error for the first
      one missing; and it reads to the end of the struct. */
  lemma {:induction false} TupleReadBack(fs: Fields, tail: seq<Token>)
    requires FieldsProper(fs)
    ensures var t := TupleOf(fs);
            ParseTuple(Emit(Struct(fs)) + tail) == if t.Ok? then Ok((t.value, tail)) else Err(t.message)
  {
    StructRegrouped(fs, tail);
    ExpectEmitted(StructBegin, EmitFields(fs) + ([StructEnd] + tail));
    TupleLoopEmitted(NO_FIELDS, fs, [StructEnd] + tail);
    ExpectEmitted(StructEnd, tail);
  }

  /** Reading a five-tuple succeeds exactly when each of the five fields occurs with its type. */
  lemma {:induction false} TupleReadsIff(fs: Fields)
    requires FieldsProper(fs)
    ensures TupleOf(fs).Ok? <==>
              && Last(fs, 1, STRING).Some? && Last(fs, 2, STRING).Some? && Last(fs, 3, TType.I32).Some?
              && Last(fs, 4, TType.I32).Some? && Last(fs, 5, TType.I32).Some?
    ensures TupleOf(fs).Ok? ==>
              var t := TupleOf(fs).value;
              && Last(fs, 1, STRING) == Some(Binary(t.srcIP)) && Last(fs, 2, STRING) == Some(Binary(t.dstIP))
              && Last(fs, 3, TType.I32) == Some(Int32(t.srcPort)) && Last(fs, 4, TType.I32) == Some(Int32(t.dstPort))
              && Last(fs, 5, TType.I32) == Some(Int32(t.protocol))
  {
    LastHasType(fs, 1, STRING);
    LastHasType(fs, 2, STRING);
    LastHasType(fs, 3, TType.I32);
    LastHasType(fs, 4, TType.I32);
    LastHasType(fs, 5, TType.I32);
  }

  /** The error names the first field, in order, that does not occur with its type. */
  lemma {:induction false} TupleNamesTheMissing(fs: Fields)
    requires FieldsProper(fs)
    ensures Last(fs, 1, STRING).None? ==> TupleOf(fs) == Err("Required field SrcIP is not set")
    ensures Last(fs, 1, STRING).Some? ==>
              && (Last(fs, 2, STRING).None? ==> TupleOf(fs) == Err("Required field DstIP is not set"))
              && (Last(fs, 2, STRING).Some? ==>
                    && (Last(fs, 3, TType.I32).None? ==> TupleOf(fs) == Err("Required field SrcPort is not set"))
                    && (Last(fs, 3, TType.I32).Some? ==>
                          && (Last(fs, 4, TType.I32).None? ==> TupleOf(fs) == Err("Required field DstPort is not set"))
                          && (Last(fs, 4, TType.I32).Some? && Last(fs, 5, TType.I32).None? ==>
                                TupleOf(fs) == Err("Required field Protocol is not set"))))
  {
    LastHasType(fs, 1, STRING);
    LastHasType(fs, 2, STRING);
    LastHasType(fs, 3, TType.I32);
    LastHasType(fs, 4, TType.I32);
    LastHasType(fs, 5, TType.I32);
  }

  // Packets.

  /** The first nested five-tuple that is incomplete stops the reader, even if a later one is complete. */
  function FirstBadTuple(fs: Fields): Option<string> {
    match fs
    case Stop => None
    case Field(id, v, rest) =>
      if id == 2 && v.Struct? && TupleOf(v.fields).Err? then Some(TupleOf(v.fields).message) else FirstBadTuple(rest)
  }

  function AsTuple(v: Option<Value>): Option<WireTuple> {
    if v.Some? && v.value.Struct? && TupleOf(v.value.fields).Ok? then Some(TupleOf(v.value.fields).value) else None
  }

  function PacketFields(acc: PacketSoFar, fs: Fields): PacketSoFar {
    PacketSoFar(Later(acc.timestampUnixNano, AsInt64(Last(fs, 1, TType.I64))),
                Later(acc.fiveTuple, AsTuple(Last(fs, 2, STRUCT))),
                Later(acc.length, AsInt64(Last(fs, 3, TType.I64))))
  }

  /** What a struct stands for as a packet. */
  function PacketOf(fs: Fields): Result<WirePacket> {
    if FirstBadTuple(fs).Some? then Err(FirstBadTuple(fs).value) else CompletePacket(PacketFields(NO_PACKET_FIELDS, fs))
  }

  function OnePacketField(acc: PacketSoFar, id: int, v: Value): PacketSoFar {
    if id == 1 && v.Int64? then acc.(timestampUnixNano := Some(v.i64))
    else if id == 2 && v.Struct? && TupleOf(v.fields).Ok? then acc.(fiveTuple := Some(TupleOf(v.fields).value))
    else if id == 3 && v.Int64? then acc.(length := Some(v.i64))
    else acc
  }

  lemma {:induction false} PacketFieldEmitted(acc: PacketSoFar, id: int, v: Value, tail: seq<Token>)
    requires Proper(v)
    ensures PacketField(acc, TypeOf(v), id, Emit(v) + tail)
            == if id == 2 && v.Struct? && TupleOf(v.fields).Err? then Err(TupleOf(v.fields).message)
               else Ok((OnePacketField(acc, id, v), tail))
  {
    if v.Int64? {
      LeafEmitted(v, tail);
    }
    if v.Struct? {
      TupleReadBack(v.fields, tail);
    }
    SkipEmitted(v, tail);
  }

  /** A nested five-tuple that counts is complete. */
  lemma {:induction false} NestedIsComplete(fs: Fields)
    requires FieldsProper(fs) && FirstBadTuple(fs).None?
    ensures Last(fs, 2, STRUCT).Some? ==>
              Last(fs, 2, STRUCT).value.Struct? && TupleOf(Last(fs, 2, STRUCT).value.fields).Ok?
  {
    match fs {
      case Stop =>
      case Field(id, v, rest) => NestedIsComplete(rest);
    }
  }

  lemma {:induction false} PacketFieldsCons(acc: PacketSoFar, id: int, v: Value, rest: Fields)
    requires Proper(v) && FieldsProper(rest) && FirstBadTuple(Field(id, v, rest)).None?
    ensures PacketFields(OnePacketField(acc, id, v), rest) == PacketFields(acc, Field(id, v, rest))
  {
    LastHasType(rest, 1, TType.I64);
    LastHasType(rest, 3, TType.I64);
    NestedIsComplete(rest);
  }

  lemma {:induction false} PacketLoopEmitted(acc: PacketSoFar, fs: Fields, tail: seq<Token>)
    requires FieldsProper(fs)
    ensures PacketLoop(acc, EmitFields(fs) + tail)
            == if FirstBadTuple(fs).Some? then Err(FirstBadTuple(fs).value) else Ok((PacketFields(acc, fs), tail))
    decreases fs
  {
    var s := EmitFields(fs) + tail;
    match fs {
      case Stop =>
        assert s[1..] == tail;
      case Field(id, v, rest) =>
        FieldsRegrouped(id, v, rest, tail);
        var after := [FieldEnd] + (EmitFields(rest) + tail);
        assert s[1..] == Emit(v) + after;
        PacketFieldEmitted(acc, id, v, after);
        if !(id == 2 && v.Struct? && TupleOf(v.fields).Err?) {
          ExpectEmitted(FieldEnd, EmitFields(rest) + tail);
          PacketLoopEmitted(OnePacketField(acc, id, v), rest, tail);
          if FirstBadTuple(rest).None? {
            PacketFieldsCons(acc, id, v, rest);
          }
        }
    }
  }

  /** PacketInfo.Read on any struct a peer may send. */
  lemma {:induction false} PacketReadBack(fs: Fields, tail: seq<Token>)
    requires FieldsProper(fs)
    ensures var p := PacketOf(fs);
            ParsePacket(Emit(Struct(fs)) + tail) == if p.Ok? then Ok((p.value, tail)) else Err(p.message)
  {
    var inner := EmitFields(fs) + ([StructEnd] + tail);
    StructRegrouped(fs, tail);
    ExpectEmitted(StructBegin, inner);
    PacketLoopEmitted(NO_PACKET_FIELDS, fs, [StructEnd] + tail);
    ExpectEmitted(StructEnd, tail);
    var loop := PacketLoop(NO_PACKET_FIELDS, inner);
    assert loop.Err? ==> PacketOf(fs) == Err(loop.message);
    assert loop.Ok? ==> PacketOf(fs) == CompletePacket(loop.value.0) && loop.value.1 == [StructEnd] + tail;
  }

  lemma {:induction false} StructRegrouped(fs: Fields, tail: seq<Token>)
    ensures Emit(Struct(fs)) + tail == [StructBegin] + (EmitFields(fs) + ([StructEnd] + tail))
  {
  }

  /** Reading a packet succeeds exactly when the three fields occur with their types and every nested
      struct in field 2 is a complete five-tuple; the last field of each number and type counts. */
  lemma {:induction false} PacketReadsIff(fs: Fields)
    requires FieldsProper(fs)
    ensures PacketOf(fs).Ok? <==>
              && Last(fs, 1, TType.I64).Some? && Last(fs, 2, STRUCT).Some? && Last(fs, 3, TType.I64).Some?
              && FirstBadTuple(fs).None?
    ensures PacketOf(fs).Ok? ==>
              var p := PacketOf(fs).value;
              && Last(fs, 1, TType.I64) == Some(Int64(p.timestampUnixNano))
              && Last(fs, 3, TType.I64) == Some(Int64(p.length))
              && p.fiveTuple.Some? && Last(fs, 2, STRUCT).value.Struct?
              && TupleOf(Last(fs, 2, STRUCT).value.fields) == Ok(p.fiveTuple.value)
  {
    LastHasType(fs, 1, TType.I64);
    LastHasType(fs, 3, TType.I64);
    if FirstBadTuple(fs).None? {
      NestedIsComplete(fs);
    }
  }

  /** Unless a nested five-tuple is incomplete, whose error comes first, the error names the first of the three
      fields that does not occur with its type. */
  lemma {:induction false} PacketNamesTheMissing(fs: Fields)
    requires FieldsProper(fs)
    ensures FirstBadTuple(fs).Some? ==> PacketOf(fs) == Err(FirstBadTuple(fs).value)
    ensures FirstBadTuple(fs).None? ==>
              && (Last(fs, 1, TType.I64).None? ==> PacketOf(fs) == Err("Required field TimestampUnixNano is not set"))
              && (Last(fs, 1, TType.I64).Some? ==>
                    && (Last(fs, 2, STRUCT).None? ==> PacketOf(fs) == Err("Required field FiveTuple is not set"))
                    && (Last(fs, 2, STRUCT).Some? && Last(fs, 3, TType.I64).None? ==>
                          PacketOf(fs) == Err("Required field Length is not set")))
  {
    LastHasType(fs, 1, TType.I64);
    LastHasType(fs, 3, TType.I64);
    if FirstBadTuple(fs).None? {
      NestedIsComplete(fs);
    }
  }

  lemma WrittenTuple(t: WireTuple)
    ensures Proper(TupleValue(Some(t))) && TupleOf(TupleValue(Some(t)).fields) == Ok(t)
  {
    var f5 := Field(5, Int32(t.protocol), Stop);
    var f4 := Field(4, Int32(t.dstPort), f5);
    var f3 := Field(3, Int32(t.srcPort), f4);
    var f2 := Field(2, Binary(t.dstIP), f3);
    var a1 := NO_FIELDS.(srcIP := Some(t.srcIP));
    var a2 := a1.(dstIP := Some(t.dstIP));
    var a3 := a2.(srcPort := Some(t.srcPort));
    var a4 := a3.(dstPort := Some(t.dstPort));
    assert FieldsProper(f5) && FieldsProper(f4) && FieldsProper(f3) && FieldsProper(f2);
    TupleFieldsCons(NO_FIELDS, 1, Binary(t.srcIP), f2);
    TupleFieldsCons(a1, 2, Binary(t.dstIP), f3);
    TupleFieldsCons(a2, 3, Int32(t.srcPort), f4);
    TupleFieldsCons(a3, 4, Int32(t.dstPort), f5);
    TupleFieldsCons(a4, 5, Int32(t.protocol), Stop);
  }

  lemma WrittenPacket(p: WirePacket)
    ensures Proper(PacketValue(p))
    ensures PacketOf(PacketValue(p).fields) ==
              if p.fiveTuple.Some? then Ok(p) else Err("Required field SrcIP is not set")
  {
    var nested := TupleValue(p.fiveTuple);
    assert FieldsProper(Stop) && FirstBadTuple(Stop).None?;
    var f3 := Field(3, Int64(p.length), Stop);
    var f2 := Field(2, nested, f3);
    if p.fiveTuple.Some? {
      WrittenTuple(p.fiveTuple.value);
      assert FieldsProper(f3) && FieldsProper(f2);
      assert FirstBadTuple(f3).None? && FirstBadTuple(f2).None?;
      var a1 := NO_PACKET_FIELDS.(timestampUnixNano := Some(p.timestampUnixNano));
      PacketFieldsCons(NO_PACKET_FIELDS, 1, Int64(p.timestampUnixNano), f2);
      PacketFieldsCons(a1, 2, nested, f3);
      PacketFieldsCons(a1.(fiveTuple := p.fiveTuple), 3, Int64(p.length), Stop);
    } else {
      assert TupleOf(nested.fields) == Err("Required field SrcIP is not set");
      assert FieldsProper(f3) && FieldsProper(f2);
      assert FirstBadTuple(f2) == Some("Required field SrcIP is not set");
    }
  }

  /** Encoding and decoding give the packet back, unless it had no five-tuple, and then an error. */
  lemma WriteThenRead(p: WirePacket, tail: seq<Token>)
    ensures ParsePacket(Emit(PacketValue(p)) + tail)
            == if p.fiveTuple.Some? then Ok((p, tail)) else Err("Required field SrcIP is not set")
  {
    WrittenPacket(p);
    PacketReadBack(PacketValue(p).fields, tail);
  }

  /** A packet with an incomplete five-tuple before a complete one is refused, though without the first it
      would be read. */
  lemma EarlierBadTupleRefuses(p: WirePacket, tail: seq<Token>)
    requires p.fiveTuple.Some?
    ensures var fs := PacketValue(p).fields;
            && ParsePacket(Emit(Struct(fs)) + tail) == Ok((p, tail))
            && ParsePacket(Emit(Struct(Field(2, Struct(Stop), fs))) + tail) == Err("Required field SrcIP is not set")
  {
    WrittenPacket(p);
    WriteThenRead(p, tail);
    var fs := PacketValue(p).fields;
    assert FieldsProper(Stop) && TupleOf(Stop) == Err("Required field SrcIP is not set");
    assert FieldsProper(Field(2, Struct(Stop), fs));
    assert FirstBadTuple(Field(2, Struct(Stop), fs)) == Some("Required field SrcIP is not set");
    PacketReadBack(Field(2, Struct(Stop), fs), tail);
  }

  // What does not matter.

  /** One more field at place k. */
  function Insert(fs: Fields, k: nat, id: int, v: Value): Fields {
    if k == 0 || fs.Stop? then Field(id, v, fs) else Field(fs.id, fs.v, Insert(fs.rest, k - 1, id, v))
  }

  /** The fields at places k and k + 1 in the other order. */
  function Swap(fs: Fields, k: nat): Fields {
    match fs
    case Stop => Stop
    case Field(id, v, rest) =>
      if k > 0 then Field(id, v, Swap(rest, k - 1))
      else
        match rest
        case Stop => fs
        case Field(id2, v2, rest2) => Field(id2, v2, Field(id, v, rest2))
  }

  predicate NeighboursDiffer(fs: Fields, k: nat) {
    match fs
    case Stop => true
    case Field(id, _, rest) => if k > 0 then NeighboursDiffer(rest, k - 1) else rest.Stop? || rest.id != id
  }

  /** Another value for the field at place k. */
  function Replace(fs: Fields, k: nat, v: Value): Fields {
    match fs
    case Stop => Stop
    case Field(id, w, rest) => if k == 0 then Field(id, v, rest) else Field(id, w, Replace(rest, k - 1, v))
  }

  function At(fs: Fields, k: nat): Option<Value> {
    match fs
    case Stop => None
    case Field(_, v, rest) => if k == 0 then Some(v) else At(rest, k - 1)
  }

  predicate TupleUses(id: int, t: TType) {
    ((id == 1 || id == 2) && t == STRING) || ((id == 3 || id == 4 || id == 5) && t == TType.I32)
  }

  predicate PacketUses(id: int, t: TType) {
    ((id == 1 || id == 3) && t == TType.I64) || (id == 2 && t == STRUCT)
  }

  lemma {:induction false} LastAfterInsert(fs: Fields, k: nat, id: int, v: Value, i: int, t: TType)
    requires i != id || t != TypeOf(v)
    ensures Last(Insert(fs, k, id, v), i, t) == Last(fs, i, t)
    decreases fs
  {
    if k > 0 && fs.Field? {
      LastAfterInsert(fs.rest, k - 1, id, v, i, t);
    }
  }

  /** Fields with an unknown number or a wrong type, wherever they stand, are as good as absent. */
  lemma {:induction false} TupleIgnoresUnknown(fs: Fields, k: nat, id: int, v: Value)
    requires !TupleUses(id, TypeOf(v))
    ensures TupleOf(Insert(fs, k, id, v)) == TupleOf(fs)
  {
    LastAfterInsert(fs, k, id, v, 1, STRING);
    LastAfterInsert(fs, k, id, v, 2, STRING);
    LastAfterInsert(fs, k, id, v, 3, TType.I32);
    LastAfterInsert(fs, k, id, v, 4, TType.I32);
    LastAfterInsert(fs, k, id, v, 5, TType.I32);
  }

  lemma {:induction false} BadAfterInsert(fs: Fields, k: nat, id: int, v: Value)
    requires !PacketUses(id, TypeOf(v))
    ensures FirstBadTuple(Insert(fs, k, id, v)) == FirstBadTuple(fs)
    decreases fs
  {
    if k > 0 && fs.Field? {
      BadAfterInsert(fs.rest, k - 1, id, v);
    }
  }

  lemma {:induction false} PacketIgnoresUnknown(fs: Fields, k: nat, id: int, v: Value)
    requires !PacketUses(id, TypeOf(v))
    ensures PacketOf(Insert(fs, k, id, v)) == PacketOf(fs)
  {
    LastAfterInsert(fs, k, id, v, 1, TType.I64);
    LastAfterInsert(fs, k, id, v, 2, STRUCT);
    LastAfterInsert(fs, k, id, v, 3, TType.I64);
    BadAfterInsert(fs, k, id, v);
  }

  lemma {:induction false} LastAfterSwap(fs: Fields, k: nat, i: int, t: TType)
    requires NeighboursDiffer(fs, k)
    ensures Last(Swap(fs, k), i, t) == Last(fs, i, t)
    decreases fs
  {
    if fs.Field? && k > 0 {
      LastAfterSwap(fs.rest, k - 1, i, t);
    }
  }

  /** Fields of different numbers may come in any order. */
  lemma {:induction false} TupleIgnoresOrder(fs: Fields, k: nat)
    requires NeighboursDiffer(fs, k)
    ensures TupleOf(Swap(fs, k)) == TupleOf(fs)
  {
    LastAfterSwap(fs, k, 1, STRING);
    LastAfterSwap(fs, k, 2, STRING);
    LastAfterSwap(fs, k, 3, TType.I32);
    LastAfterSwap(fs, k, 4, TType.I32);
    LastAfterSwap(fs, k, 5, TType.I32);
  }

  lemma {:induction false} BadAfterSwap(fs: Fields, k: nat)
    requires NeighboursDiffer(fs, k)
    ensures FirstBadTuple(Swap(fs, k)) == FirstBadTuple(fs)
    decreases fs
  {
    if fs.Field? && k > 0 {
      BadAfterSwap(fs.rest, k - 1);
    }
  }

  lemma {:induction false} PacketIgnoresOrder(fs: Fields, k: nat)
    requires NeighboursDiffer(fs, k)
    ensures PacketOf(Swap(fs, k)) == PacketOf(fs)
  {
    LastAfterSwap(fs, k, 1, TType.I64);
    LastAfterSwap(fs, k, 2, STRUCT);
    LastAfterSwap(fs, k, 3, TType.I64);
    BadAfterSwap(fs, k);
  }

  lemma {:induction false} LastAfterReplace(fs: Fields, k: nat, g: Fields, i: int, t: TType)
    requires At(fs, k).Some? && At(fs, k).value.Struct? && t != STRUCT
    ensures Last(Replace(fs, k, Struct(g)), i, t) == Last(fs, i, t)
    decreases fs
  {
    if k > 0 {
      LastAfterReplace(fs.rest, k - 1, g, i, t);
    }
  }

  lemma {:induction false} TupleAfterReplace(fs: Fields, k: nat, g: Fields)
    requires At(fs, k).Some? && At(fs, k).value.Struct? && TupleOf(g) == TupleOf(At(fs, k).value.fields)
    ensures var after := Replace(fs, k, Struct(g));
            && AsTuple(Last(after, 2, STRUCT)) == AsTuple(Last(fs, 2, STRUCT))
            && Last(after, 2, STRUCT).Some? == Last(fs, 2, STRUCT).Some?
    decreases fs
  {
    if k > 0 {
      TupleAfterReplace(fs.rest, k - 1, g);
    }
  }

  lemma {:induction false} BadAfterReplace(fs: Fields, k: nat, g: Fields)
    requires At(fs, k).Some? && At(fs, k).value.Struct? && TupleOf(g) == TupleOf(At(fs, k).value.fields)
    ensures FirstBadTuple(Replace(fs, k, Struct(g))) == FirstBadTuple(fs)
    decreases fs
  {
    if k > 0 {
      BadAfterReplace(fs.rest, k - 1, g);
    }
  }

  /** Inside the nested five-tuple, too, only the last fields of right type matter. */
  lemma {:induction false} PacketSeesOnlyTheTuple(fs: Fields, k: nat, g: Fields)
    requires At(fs, k).Some? && At(fs, k).value.Struct? && TupleOf(g) == TupleOf(At(fs, k).value.fields)
    ensures PacketOf(Replace(fs, k, Struct(g))) == PacketOf(fs)
  {
    LastAfterReplace(fs, k, g, 1, TType.I64);
    TupleAfterReplace(fs, k, g);
    BadAfterReplace(fs, k, g);
    LastAfterReplace(fs, k, g, 3, TType.I64);
  }
}
