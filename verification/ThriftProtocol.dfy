/** Thrift protocols as streams of tokens: what a writer emits, and how a reader skips a value it does not
    want. The generated code (traffic.go) sees nothing else of the wire. */
module ThriftProtocol {
  import opened Words
  import opened Outcomes

  datatype TType = BOOL | BYTE | DOUBLE | I16 | I32 | I64 | STRING | STRUCT | MAP | SET | LIST

  datatype Token =
    | StructBegin
    | StructEnd
    | FieldBegin(t: TType, id: int)
    | FieldEnd
    | FieldStop
    | PlainToken(plain: TType, bits: int)
    | I32Token(i32: int32)
    | I64Token(i64: int64)
    | BinaryToken(b: Key)
    | ContainerBegin(kind: TType, types: seq<TType>, count: nat)
    | ContainerEnd

  /** A value of any type. BOOL, BYTE, DOUBLE and I16 are Plain; a list or set has one element type, a map
      two, and its items are keys and values in turn. */
  datatype Value =
    | Plain(t: TType, bits: int)
    | Int32(i32: int32)
    | Int64(i64: int64)
    | Binary(b: Key)
    | Struct(fields: Fields)
    | Container(kind: TType, types: seq<TType>, items: Items)

  datatype Fields = Stop | Field(id: int, v: Value, rest: Fields)
  datatype Items = NoItems | Item(v: Value, rest: Items)

  predicate IsPlain(t: TType) {
    t.BOOL? || t.BYTE? || t.DOUBLE? || t.I16?
  }

  predicate IsContainer(t: TType) {
    t.MAP? || t.SET? || t.LIST?
  }

  function TypeOf(v: Value): TType {
    match v
    case Plain(t, _) => t
    case Int32(_) => I32
    case Int64(_) => I64
    case Binary(_) => STRING
    case Struct(_) => STRUCT
    case Container(kind, _, _) => kind
  }

  function Count(items: Items): nat {
    match items
    case NoItems => 0
    case Item(_, rest) => 1 + Count(rest)
  }

  /** Values as a writer can produce them: the items of a container have its element types, in turn. */
  predicate Proper(v: Value)
    decreases v
  {
    match v
    case Plain(t, _) => IsPlain(t)
    case Struct(fields) => FieldsProper(fields)
    case Container(kind, types, items) =>
      IsContainer(kind) && |types| > 0 && Count(items) % |types| == 0 && ItemsProper(types, 0, items)
    case _ => true
  }

  predicate FieldsProper(fs: Fields)
    decreases fs
  {
    match fs
    case Stop => true
    case Field(_, v, rest) => Proper(v) && FieldsProper(rest)
  }

  predicate ItemsProper(types: seq<TType>, k: nat, items: Items)
    requires |types| > 0
    decreases items
  {
    match items
    case NoItems => true
    case Item(v, rest) => Proper(v) && TypeOf(v) == types[k % |types|] && ItemsProper(types, k + 1, rest)
  }

  function Emit(v: Value): seq<Token> {
    match v
    case Plain(t, n) => [PlainToken(t, n)]
    case Int32(n) => [I32Token(n)]
    case Int64(n) => [I64Token(n)]
    case Binary(b) => [BinaryToken(b)]
    case Struct(fields) => [StructBegin] + EmitFields(fields) + [StructEnd]
    case Container(kind, types, items) =>
      [ContainerBegin(kind, types, if |types| > 0 then Count(items) / |types| else 0)]
      + EmitItems(items) + [ContainerEnd]
  }

  function EmitFields(fs: Fields): seq<Token> {
    match fs
    case Stop => [FieldStop]
    case Field(id, v, rest) => [FieldBegin(TypeOf(v), id)] + Emit(v) + [FieldEnd] + EmitFields(rest)
  }

  function EmitItems(items: Items): seq<Token> {
    match items
    case NoItems => []
    case Item(v, rest) => Emit(v) + EmitItems(rest)
  }

  // Reading.

  /** A reader that has to find one given token. */
  function Expect(token: Token, s: seq<Token>): (r: Result<seq<Token>>)
    ensures r.Ok? ==> |r.value| < |s|
  {
    if s != [] && s[0] == token then Ok(s[1..]) else Err("unexpected token")
  }

  /** Skip: reads past one value of type t. */
  function Skip(t: TType, s: seq<Token>): (r: Result<seq<Token>>)
    ensures r.Ok? ==> |r.value| < |s|
    decreases |s|, 1
  {
    if s == [] then Err("end of input")
    else if IsPlain(t) then
      if s[0].PlainToken? && s[0].plain == t then Ok(s[1..]) else Err("unexpected token")
    else if IsContainer(t) then
      if s[0].ContainerBegin? && s[0].kind == t && |s[0].types| > 0 then
        var r := SkipItems(s[0].types, 0, s[0].count * |s[0].types|, s[1..]);
        if r.Err? then r else Expect(ContainerEnd, r.value)
      else Err("unexpected token")
    else if t.STRUCT? then
      if s[0] != StructBegin then Err("unexpected token")
      else
        var r := SkipFields(s[1..]);
        if r.Err? then r else Expect(StructEnd, r.value)
    else if (t.I32? && s[0].I32Token?) || (t.I64? && s[0].I64Token?) || (t.STRING? && s[0].BinaryToken?) then Ok(s[1..])
    else Err("unexpected token")
  }

  function SkipFields(s: seq<Token>): (r: Result<seq<Token>>)
    ensures r.Ok? ==> |r.value| < |s|
    decreases |s|, 0
  {
    if s == [] then Err("end of input")
    else if s[0] == FieldStop then Ok(s[1..])
    else if !s[0].FieldBegin? then Err("unexpected token")
    else
      var skipped := Skip(s[0].t, s[1..]);
      if skipped.Err? then skipped
      else
        var ended := Expect(FieldEnd, skipped.value);
        if ended.Err? then ended else SkipFields(ended.value)
  }

  function SkipItems(types: seq<TType>, k: nat, n: nat, s: seq<Token>): (r: Result<seq<Token>>)
    requires |types| > 0
    ensures r.Ok? ==> |r.value| <= |s|
    decreases |s|, 2
  {
    if k >= n then Ok(s)
    else
      var skipped := Skip(types[k % |types|], s);
      if skipped.Err? then skipped else SkipItems(types, k + 1, n, skipped.value)
  }

  lemma ExpectEmitted(token: Token, tail: seq<Token>)
    ensures Expect(token, [token] + tail) == Ok(tail)
  {
  }

  lemma {:induction false} FieldsRegrouped(id: int, v: Value, rest: Fields, tail: seq<Token>)
    ensures EmitFields(Field(id, v, rest)) + tail
            == [FieldBegin(TypeOf(v), id)] + (Emit(v) + ([FieldEnd] + (EmitFields(rest) + tail)))
  {
  }

  /** Skipping a value that was emitted leaves exactly what follows it. */
  lemma {:induction false} SkipEmitted(v: Value, tail: seq<Token>)
    requires Proper(v)
    ensures Skip(TypeOf(v), Emit(v) + tail) == Ok(tail)
    decreases v
  {
    var s := Emit(v) + tail;
    match v {
      case Struct(fields) =>
        assert s == [StructBegin] + (EmitFields(fields) + ([StructEnd] + tail));
        SkipFieldsEmitted(fields, [StructEnd] + tail);
        assert s[1..] == EmitFields(fields) + ([StructEnd] + tail);
        ExpectEmitted(StructEnd, tail);
      case Container(kind, types, items) =>
        SkipContainerEmitted(v, tail);
      case _ =>
        assert s[1..] == tail;
    }
  }

  lemma {:induction false} SkipContainerEmitted(v: Value, tail: seq<Token>)
    requires Proper(v) && v.Container?
    ensures Skip(TypeOf(v), Emit(v) + tail) == Ok(tail)
    decreases v, 0
  {
    var s := Emit(v) + tail;
    var count := Count(v.items) / |v.types|;
    assert s == [ContainerBegin(v.kind, v.types, count)] + (EmitItems(v.items) + ([ContainerEnd] + tail));
    assert s[1..] == EmitItems(v.items) + ([ContainerEnd] + tail);
    assert count * |v.types| == Count(v.items);
    SkipItemsEmitted(v.types, 0, v.items, [ContainerEnd] + tail);
    ExpectEmitted(ContainerEnd, tail);
  }

  lemma {:induction false} SkipFieldsEmitted(fs: Fields, tail: seq<Token>)
    requires FieldsProper(fs)
    ensures SkipFields(EmitFields(fs) + tail) == Ok(tail)
    decreases fs
  {
    var s := EmitFields(fs) + tail;
    match fs {
      case Stop =>
        assert s[1..] == tail;
      case Field(id, v, rest) =>
        FieldsRegrouped(id, v, rest, tail);
        SkipEmitted(v, [FieldEnd] + (EmitFields(rest) + tail));
        assert s[1..] == Emit(v) + ([FieldEnd] + (EmitFields(rest) + tail));
        ExpectEmitted(FieldEnd, EmitFields(rest) + tail);
        SkipFieldsEmitted(rest, tail);
    }
  }

  lemma {:induction false} SkipItemsEmitted(types: seq<TType>, k: nat, items: Items, tail: seq<Token>)
    requires |types| > 0 && ItemsProper(types, k, items)
    ensures SkipItems(types, k, k + Count(items), EmitItems(items) + tail) == Ok(tail)
    decreases items
  {
    match items {
      case NoItems =>
        assert [] + tail == tail;
      case Item(v, rest) =>
        assert EmitItems(items) + tail == Emit(v) + (EmitItems(rest) + tail);
        SkipEmitted(v, EmitItems(rest) + tail);
        SkipItemsEmitted(types, k + 1, rest, tail);
    }
  }
}
