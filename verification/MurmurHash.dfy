/** MurmurHash3_x86_32 (hash.go): the loop of the source, the same digest as a composition of word
    permutations, and the collisions that composition rules out. */
module MurmurHash {
  import opened Words

  // The word operations of the algorithm.

  function MulC1(x: bv32): bv32 { x * 0xcc9e2d51 }

  function MulC2(x: bv32): bv32 { x * 0x1b873593 }

  function Rotl15(x: bv32): bv32 { (x << 15) | (x >> 17) }

  function Rotl13(x: bv32): bv32 { (x << 13) | (x >> 19) }

  function Mul5Add(x: bv32): bv32 { x * 5 + 0xe6546b64 }

  function Fold16(x: bv32): bv32 { x ^ (x >> 16) }

  function Fold13(x: bv32): bv32 { x ^ (x >> 13) }

  function MulF1(x: bv32): bv32 { x * 0x85ebca6b }

  function MulF2(x: bv32): bv32 { x * 0xc2b2ae35 }

  function Xor(x: bv32, y: bv32): bv32 { x ^ y }

  /** Four bytes, least significant first. */
  function WordOf(a: bv8, b: bv8, c: bv8, d: bv8): bv32 {
    (a as bv32) | ((b as bv32) << 8) | ((c as bv32) << 16) | ((d as bv32) << 24)
  }

  function Word(b: Key): bv32
    requires |b| == 4
  {
    WordOf(b[0], b[1], b[2], b[3])
  }

  /** One to three trailing bytes. */
  function TailWord(b: Key): bv32
    requires 0 < |b| < 4
  {
    WordOf(b[0], if |b| >= 2 then b[1] else 0, if |b| == 3 then b[2] else 0, 0)
  }

  function Mix(k: bv32): bv32 { MulC2(Rotl15(MulC1(k))) }

  function Block(h: bv32, k: bv32): bv32 { Mul5Add(Rotl13(Xor(h, Mix(k)))) }

  /** The state after all of data, from state h. */
  function Body(data: Key, h: bv32): bv32 {
    if |data| >= 4 then Body(data[4..], Block(h, Word(data[..4])))
    else if |data| > 0 then Xor(h, Mix(TailWord(data)))
    else h
  }

  function Avalanche(x: bv32): bv32 {
    Fold16(MulF2(Fold13(MulF1(Fold16(x)))))
  }

  function Length(data: Key): bv32 {
    (|data| % TWO_32) as bv32
  }

  lemma LengthInBytes(data: Key)
    requires |data| < TWO_32
    ensures Length(data) == |data| as bv32
  {
  }

  function Murmur(data: Key, seed: bv32): bv32 {
    Avalanche(Xor(Body(data, seed), Length(data)))
  }

  method MurmurHash3(data: Key, seed: bv32) returns (h1: bv32)
    ensures h1 == Murmur(data, seed)
  {
    h1 := seed;
    var clen := Length(data);
    var rest := data;
    while |rest| >= 4
      invariant Body(rest, h1) == Body(data, seed)
      decreases |rest|
    {
      var k1 := Word(rest[..4]);
      rest := rest[4..];

      k1 := MulC1(k1);
      k1 := Rotl15(k1);
      k1 := MulC2(k1);

      h1 := Xor(h1, k1);
      h1 := Rotl13(h1);
      h1 := Mul5Add(h1);
    }
    if |rest| > 0 {
      var k1 := TailWord(rest);
      k1 := MulC1(k1);
      k1 := Rotl15(k1);
      k1 := MulC2(k1);
      h1 := Xor(h1, k1);
    }

    h1 := Xor(h1, clen);

    h1 := Fold16(h1);
    h1 := MulF1(h1);
    h1 := Fold13(h1);
    h1 := MulF2(h1);
    h1 := Fold16(h1);
  }

  // Every stage is a permutation of 32-bit words: here are the inverses.

  function DivC1(x: bv32): bv32 { x * 0xdee13bb1 }

  lemma MulC1Bijective(x: bv32)
    ensures DivC1(MulC1(x)) == x && MulC1(DivC1(x)) == x
  {
    assert DivC1(x * 0xcc9e2d51) == x && MulC1(x * 0xdee13bb1) == x;
  }

  function DivC2(x: bv32): bv32 { x * 0x56ed309b }

  lemma MulC2Bijective(x: bv32)
    ensures DivC2(MulC2(x)) == x && MulC2(DivC2(x)) == x
  {
    assert DivC2(x * 0x1b873593) == x && MulC2(x * 0x56ed309b) == x;
  }

  function DivF1(x: bv32): bv32 { x * 0xa5cb9243 }

  lemma MulF1Bijective(x: bv32)
    ensures DivF1(MulF1(x)) == x && MulF1(DivF1(x)) == x
  {
    assert DivF1(x * 0x85ebca6b) == x && MulF1(x * 0xa5cb9243) == x;
  }

  function DivF2(x: bv32): bv32 { x * 0x7ed1b41d }

  lemma MulF2Bijective(x: bv32)
    ensures DivF2(MulF2(x)) == x && MulF2(DivF2(x)) == x
  {
    assert DivF2(x * 0xc2b2ae35) == x && MulF2(x * 0x7ed1b41d) == x;
  }

  function Rotr15(x: bv32): bv32 { (x >> 15) | (x << 17) }

  lemma Rotl15Bijective(x: bv32)
    ensures Rotr15(Rotl15(x)) == x && Rotl15(Rotr15(x)) == x
  {
  }

  function Rotr13(x: bv32): bv32 { (x >> 13) | (x << 19) }

  lemma Rotl13Bijective(x: bv32)
    ensures Rotr13(Rotl13(x)) == x && Rotl13(Rotr13(x)) == x
  {
  }

  function SubDiv5(x: bv32): bv32 { (x - 0xe6546b64) * 0xcccccccd }

  lemma Mul5AddBijective(x: bv32)
    ensures SubDiv5(Mul5Add(x)) == x && Mul5Add(SubDiv5(x)) == x
  {
    assert SubDiv5(x * 5 + 0xe6546b64) == x && Mul5Add((x - 0xe6546b64) * 0xcccccccd) == x;
  }

  lemma Fold16Bijective(x: bv32)
    ensures Fold16(Fold16(x)) == x
  {
    assert Fold16(x ^ (x >> 16)) == x;
  }

  function Unfold13(x: bv32): bv32 { x ^ (x >> 13) ^ (x >> 26) }

  lemma Fold13Bijective(x: bv32)
    ensures Unfold13(Fold13(x)) == x && Fold13(Unfold13(x)) == x
  {
    assert Unfold13(x ^ (x >> 13)) == x && Fold13(x ^ (x >> 13) ^ (x >> 26)) == x;
  }

  lemma XorTwice(x: bv32, y: bv32)
    ensures Xor(Xor(x, y), y) == x && Xor(x, y) == Xor(y, x)
  {
    assert Xor(x ^ y, y) == x;
  }

  function Unmix(k: bv32): bv32 { DivC1(Rotr15(DivC2(k))) }

  lemma MixBijective(k: bv32)
    ensures Unmix(Mix(k)) == k && Mix(Unmix(k)) == k
  {
    MulC1Bijective(k);
    Rotl15Bijective(MulC1(k));
    MulC2Bijective(Rotl15(MulC1(k)));
    MulC2Bijective(k);
    Rotl15Bijective(DivC2(k));
    MulC1Bijective(Rotr15(DivC2(k)));
  }

  function Unblock(x: bv32, k: bv32): bv32 { Xor(Rotr13(SubDiv5(x)), Mix(k)) }

  lemma BlockBijective(h: bv32, k: bv32)
    ensures Unblock(Block(h, k), k) == h && Block(Unblock(h, k), k) == h
  {
    XorTwice(h, Mix(k));
    Rotl13Bijective(Xor(h, Mix(k)));
    Mul5AddBijective(Rotl13(Xor(h, Mix(k))));
    Mul5AddBijective(h);
    Rotl13Bijective(SubDiv5(h));
    XorTwice(Rotr13(SubDiv5(h)), Mix(k));
  }

  function Unavalanche(x: bv32): bv32 {
    Fold16(DivF1(Unfold13(DivF2(Fold16(x)))))
  }

  lemma AvalancheBijective(x: bv32)
    ensures Unavalanche(Avalanche(x)) == x && Avalanche(Unavalanche(x)) == x
  {
    Fold16Bijective(x);
    MulF1Bijective(Fold16(x));
    Fold13Bijective(MulF1(Fold16(x)));
    MulF2Bijective(Fold13(MulF1(Fold16(x))));
    Fold16Bijective(MulF2(Fold13(MulF1(Fold16(x)))));
    MulF2Bijective(Fold16(x));
    Fold13Bijective(DivF2(Fold16(x)));
    MulF1Bijective(Unfold13(DivF2(Fold16(x))));
    Fold16Bijective(DivF1(Unfold13(DivF2(Fold16(x)))));
  }

  /** The state before data that leads to state x after it. */
  function Unbody(data: Key, x: bv32): bv32 {
    if |data| >= 4 then Unblock(Unbody(data[4..], x), Word(data[..4]))
    else if |data| > 0 then Xor(x, Mix(TailWord(data)))
    else x
  }

  lemma {:induction false} BodyBijective(data: Key, h: bv32)
    ensures Unbody(data, Body(data, h)) == h && Body(data, Unbody(data, h)) == h
    decreases |data|
  {
    if |data| >= 4 {
      BodyBijective(data[4..], Block(h, Word(data[..4])));
      BlockBijective(h, Word(data[..4]));
      BodyBijective(data[4..], h);
      BlockBijective(Unbody(data[4..], h), Word(data[..4]));
    } else if |data| > 0 {
      XorTwice(h, Mix(TailWord(data)));
    }
  }

  /** The only seed under which data has digest x. */
  function SeedFor(data: Key, x: bv32): bv32 {
    Unbody(data, Xor(Unavalanche(x), Length(data)))
  }

  /** For each input the digest is a bijection of the seed. */
  lemma SeedBijection(data: Key, seed: bv32, x: bv32)
    ensures SeedFor(data, Murmur(data, seed)) == seed
    ensures Murmur(data, SeedFor(data, x)) == x
  {
    var n := Length(data);
    AvalancheBijective(Xor(Body(data, seed), n));
    XorTwice(Body(data, seed), n);
    BodyBijective(data, seed);
    BodyBijective(data, Xor(Unavalanche(x), n));
    XorTwice(Unavalanche(x), n);
    AvalancheBijective(x);
  }

  // Four-byte inputs.

  function Bytes4(w: bv32): (b: Key)
    ensures |b| == 4
  {
    [(w & 0xff) as bv8, ((w >> 8) & 0xff) as bv8, ((w >> 16) & 0xff) as bv8, (w >> 24) as bv8]
  }

  lemma WordRoundTrip(w: bv32)
    ensures Word(Bytes4(w)) == w
  {
  }

  lemma BytesRoundTrip(a: bv8, b: bv8, c: bv8, d: bv8)
    ensures Bytes4(WordOf(a, b, c, d)) == [a, b, c, d]
  {
  }

  /** The only four bytes with digest x under the seed. */
  function KeyFor(x: bv32, seed: bv32): (b: Key)
    ensures |b| == 4
  {
    Bytes4(Unmix(Xor(Rotr13(SubDiv5(Xor(Unavalanche(x), 4))), seed)))
  }

  /** For each seed the digest is a bijection from four-byte inputs to words. */
  lemma FourByteBijection(b: Key, seed: bv32, x: bv32)
    requires |b| == 4
    ensures KeyFor(Murmur(b, seed), seed) == b
    ensures Murmur(KeyFor(x, seed), seed) == x
  {
    FourByteForth(b, seed);
    FourByteBack(x, seed);
  }

  lemma FourByteDigest(b: Key, seed: bv32)
    requires |b| == 4
    ensures Murmur(b, seed) == Avalanche(Xor(Block(seed, Word(b)), 4))
  {
    assert b[..4] == b && b[4..] == [];
    assert Body([], Block(seed, Word(b))) == Block(seed, Word(b));
    assert Length(b) == 4;
  }

  lemma FourByteForth(b: Key, seed: bv32)
    requires |b| == 4
    ensures KeyFor(Murmur(b, seed), seed) == b
  {
    var k := Word(b);
    FourByteDigest(b, seed);
    AvalancheBijective(Xor(Block(seed, k), 4));
    XorTwice(Block(seed, k), 4);
    Mul5AddBijective(Rotl13(Xor(seed, Mix(k))));
    Rotl13Bijective(Xor(seed, Mix(k)));
    XorTwice(Mix(k), seed);
    XorTwice(seed, Mix(k));
    MixBijective(k);
    BytesRoundTrip(b[0], b[1], b[2], b[3]);
  }

  lemma FourByteBack(x: bv32, seed: bv32)
    ensures Murmur(KeyFor(x, seed), seed) == x
  {
    var y := Xor(Unavalanche(x), 4);
    var m := Rotr13(SubDiv5(y));
    FourByteDigest(KeyFor(x, seed), seed);
    WordRoundTrip(Unmix(Xor(m, seed)));
    MixBijective(Xor(m, seed));
    XorTwice(m, seed);
    XorTwice(seed, Xor(m, seed));
    Rotl13Bijective(SubDiv5(y));
    Mul5AddBijective(y);
    XorTwice(Unavalanche(x), 4);
    AvalancheBijective(x);
  }

  // Collisions.

  lemma {:induction false} BodySplit(p: Key, q: Key, h: bv32)
    requires |p| % 4 == 0
    ensures Body(p + q, h) == Body(q, Body(p, h))
    decreases |p|
  {
    if p == [] {
      assert p + q == q;
    } else {
      assert (p + q)[..4] == p[..4] && (p + q)[4..] == p[4..] + q;
      BodySplit(p[4..], q, Block(h, Word(p[..4])));
    }
  }

  lemma WordOfInjective(a: bv8, b: bv8, c: bv8, d: bv8, e: bv8, f: bv8, g: bv8, h: bv8)
    requires WordOf(a, b, c, d) == WordOf(e, f, g, h)
    ensures a == e && b == f && c == g && d == h
  {
    BytesRoundTrip(a, b, c, d);
    BytesRoundTrip(e, f, g, h);
    assert [a, b, c, d] == [e, f, g, h];
    assert a == [a, b, c, d][0] && b == [a, b, c, d][1] && c == [a, b, c, d][2] && d == [a, b, c, d][3];
  }

  lemma TailWordInjective(u: Key, v: Key)
    requires |u| == |v| && 0 < |u| < 4 && TailWord(u) == TailWord(v)
    ensures u == v
  {
    WordOfInjective(u[0], if |u| >= 2 then u[1] else 0, if |u| == 3 then u[2] else 0, 0,
                    v[0], if |v| >= 2 then v[1] else 0, if |v| == 3 then v[2] else 0, 0);
  }

  lemma WordInjective(u: Key, v: Key)
    requires |u| == |v| == 4 && Word(u) == Word(v)
    ensures u == v
  {
    WordOfInjective(u[0], u[1], u[2], u[3], v[0], v[1], v[2], v[3]);
  }

  lemma BlockInjective(h: bv32, j: bv32, k: bv32)
    requires Block(h, j) == Block(h, k)
    ensures j == k
  {
    Mul5AddBijective(Rotl13(Xor(h, Mix(j))));
    Mul5AddBijective(Rotl13(Xor(h, Mix(k))));
    Rotl13Bijective(Xor(h, Mix(j)));
    Rotl13Bijective(Xor(h, Mix(k)));
    XorCancel(h, Mix(j), Mix(k));
    MixInjective(j, k);
  }

  lemma MixInjective(j: bv32, k: bv32)
    requires Mix(j) == Mix(k)
    ensures j == k
  {
    MixBijective(j);
    MixBijective(k);
  }

  lemma XorCancel(h: bv32, x: bv32, y: bv32)
    requires Xor(h, x) == Xor(h, y)
    ensures x == y
  {
    XorTwice(x, h);
    XorTwice(y, h);
    XorTwice(h, x);
    XorTwice(h, y);
  }

  /** A whole block anywhere, or the tail at the end. */
  predicate AlignedUnit(u: Key, q: Key) {
    |u| == 4 || (0 < |u| < 4 && q == [])
  }

  lemma {:induction false} FirstBlockInjective(u: Key, v: Key, q: Key, h: bv32)
    requires |u| == |v| == 4 && Body(u + q, h) == Body(v + q, h)
    ensures u == v
  {
    assert (u + q)[..4] == u && (u + q)[4..] == q && (v + q)[..4] == v && (v + q)[4..] == q;
    BodyBijective(q, Block(h, Word(u)));
    BodyBijective(q, Block(h, Word(v)));
    BlockInjective(h, Word(u), Word(v));
    WordInjective(u, v);
  }

  lemma {:induction false} TailInjective(u: Key, v: Key, h: bv32)
    requires |u| == |v| && 0 < |u| < 4 && Body(u, h) == Body(v, h)
    ensures u == v
  {
    var j, k := TailWord(u), TailWord(v);
    XorCancel(h, Mix(j), Mix(k));
    MixInjective(j, k);
    TailWordInjective(u, v);
  }

  lemma {:induction false} MurmurCancel(a: Key, b: Key, seed: bv32)
    requires |a| == |b| && Murmur(a, seed) == Murmur(b, seed)
    ensures Body(a, seed) == Body(b, seed)
  {
    var n := Length(a);
    AvalancheBijective(Xor(Body(a, seed), n));
    AvalancheBijective(Xor(Body(b, seed), n));
    XorTwice(Body(a, seed), n);
    XorTwice(Body(b, seed), n);
  }

  /** Inputs of equal length that differ only in one aligned block, or only in the tail, never collide. */
  lemma OneUnitNeverCollides(p: Key, u: Key, v: Key, q: Key, seed: bv32)
    requires |p| % 4 == 0 && |u| == |v| && AlignedUnit(u, q) && u != v
    ensures Murmur(p + u + q, seed) != Murmur(p + v + q, seed)
  {
    assert p + u + q == p + (u + q) && p + v + q == p + (v + q);
    BodySplit(p, u + q, seed);
    BodySplit(p, v + q, seed);
    if Murmur(p + u + q, seed) == Murmur(p + v + q, seed) {
      MurmurCancel(p + u + q, p + v + q, seed);
      if |u| == 4 {
        FirstBlockInjective(u, v, q, Body(p, seed));
      } else {
        assert u + q == u && v + q == v;
        TailInjective(u, v, Body(p, seed));
      }
    }
  }

  /** An IPv4 address in its 16-byte form. */
  function Mapped(address: Key): Key {
    Zeros(10) + [0xff, 0xff] + address
  }

  /** Distinct IPv4 addresses have distinct digests under every seed. */
  lemma MappedAddressesNeverCollide(a: Key, b: Key, seed: bv32)
    requires |a| == |b| == 4 && a != b
    ensures Murmur(Mapped(a), seed) != Murmur(Mapped(b), seed)
  {
    OneUnitNeverCollides(Zeros(10) + [0xff, 0xff], a, b, [], seed);
    assert Mapped(a) + [] == Mapped(a) && Mapped(b) + [] == Mapped(b);
  }

  // Known digests.

  lemma {:induction false} BodyStep(data: Key, b: Key, rest: Key, h: bv32, k: bv32, next: bv32)
    requires |b| == 4 && data == b + rest && Word(b) == k && Block(h, k) == next
    ensures Body(data, h) == Body(rest, next)
  {
    assert data[..4] == b && data[4..] == rest;
  }

  lemma {:induction false} BodyEnd(data: Key, h: bv32, k: bv32, m: bv32, end: bv32)
    requires 0 < |data| < 4 && TailWord(data) == k && Mix(k) == m && Xor(h, m) == end
    ensures Body(data, h) == end
  {
  }

  lemma {:induction false} DigestFrom(data: Key, seed: bv32, body: bv32, n: bv32, x: bv32, digest: bv32)
    requires Body(data, seed) == body && Length(data) == n && Xor(body, n) == x && Avalanche(x) == digest
    ensures Murmur(data, seed) == digest
  {
  }

  lemma FirstWords(a: Key, b: Key, c: Key, d: Key)
    requires a == [0x48, 0x65, 0x6c, 0x6c] && b == [0x6f, 0x2c, 0x20, 0x77] && c == [0x6f, 0x72, 0x6c, 0x64]
    requires d == [0x21]
    ensures Word(a) == 0x6c6c6548 && Word(b) == 0x77202c6f && Word(c) == 0x646c726f && TailWord(d) == 0x21
  {
  }

  lemma FirstBlocks()
    ensures Block(0x9747b28c, 0x6c6c6548) == 0xdae4c92e && Block(0xdae4c92e, 0x77202c6f) == 0x71c6b43c
    ensures Block(0x71c6b43c, 0x646c726f) == 0x3bd692af
    ensures Mix(0x21) == 0xac5e5123 && Xor(0x3bd692af, 0xac5e5123) == 0x9788c38c
  {
  }

  lemma {:induction false} ThreeBlocksAndByte(a: Key, b: Key, c: Key, d: Key)
    requires |a| == |b| == |c| == 4 && |d| == 1
    requires Word(a) == 0x6c6c6548 && Word(b) == 0x77202c6f && Word(c) == 0x646c726f && TailWord(d) == 0x21
    ensures Body(a + (b + (c + d)), 0x9747b28c) == 0x9788c38c
  {
    FirstBlocks();
    BodyStep(a + (b + (c + d)), a, b + (c + d), 0x9747b28c, 0x6c6c6548, 0xdae4c92e);
    BodyStep(b + (c + d), b, c + d, 0xdae4c92e, 0x77202c6f, 0x71c6b43c);
    BodyStep(c + d, c, d, 0x71c6b43c, 0x646c726f, 0x3bd692af);
    BodyEnd(d, 0x3bd692af, 0x21, 0xac5e5123, 0x9788c38c);
  }

  /** "Hello, world!" */
  lemma {:induction false} DigestOfThreeBlocksAndByte(data: Key, seed: bv32)
    requires data == [0x48, 0x65, 0x6c, 0x6c, 0x6f, 0x2c, 0x20, 0x77, 0x6f, 0x72, 0x6c, 0x64, 0x21]
    requires seed == 0x9747b28c
    ensures Murmur(data, seed) == 0x24884cba
  {
    var a, b, c, d := data[..4], data[4..8], data[8..12], data[12..];
    FirstWords(a, b, c, d);
    ThreeBlocksAndByte(a, b, c, d);
    assert data == a + (b + (c + d));
    DigestFrom(data, seed, 0x9788c38c, 13, 0x9788c381, 0x24884cba);
  }

  /** "", "a", "ab" and "abc" */
  lemma {:induction false} DigestOfTails(data: Key, seed: bv32)
    ensures data == [] && seed == 1 ==> Murmur(data, seed) == 0x514e28b7
    ensures data == [0x61] && seed == 0x9747b28c ==> Murmur(data, seed) == 0x7fa09ea6
    ensures data == [0x61, 0x62] && seed == 0x9747b28c ==> Murmur(data, seed) == 0x74875592
    ensures data == [0x61, 0x62, 0x63] && seed == 0x9747b28c ==> Murmur(data, seed) == 0xc84a62dd
  {
    if data == [] && seed == 1 {
      DigestFrom(data, seed, 1, 0, 1, 0x514e28b7);
    } else if data == [0x61] && seed == 0x9747b28c {
      BodyEnd(data, seed, 0x61, 0x504ba9d5, 0xc70c1b59);
      DigestFrom(data, seed, 0xc70c1b59, 1, 0xc70c1b58, 0x7fa09ea6);
    } else if data == [0x61, 0x62] && seed == 0x9747b28c {
      BodyEnd(data, seed, 0x6261, 0x5b87902c, 0xccc022a0);
      DigestFrom(data, seed, 0xccc022a0, 2, 0xccc022a2, 0x74875592);
    } else if data == [0x61, 0x62, 0x63] && seed == 0x9747b28c {
      BodyEnd(data, seed, 0x636261, 0xa7349db7, 0x30732f3b);
      DigestFrom(data, seed, 0x30732f3b, 3, 0x30732f38, 0xc84a62dd);
    }
  }
}
