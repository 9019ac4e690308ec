/** How a row of width 2^k spreads four-byte keys: the uniformity that func_test.go samples, proved
    for every seed and every key. */
module MurmurBuckets {
  import opened Words
  import opened MurmurHash
  import opened Bytes

  function Digits(a: uint8, b: uint8, c: uint8, d: uint8): uint32 {
    a + 0x100 * b + 0x1_0000 * c + 0x100_0000 * d
  }

  /** A word as a number. */
  function Value(x: bv32): uint32 {
    var b := Bytes4(x);
    Digits(ByteValue(b[0]), ByteValue(b[1]), ByteValue(b[2]), ByteValue(b[3]))
  }

  function WordFor(n: uint32): bv32 {
    WordOf(ByteFor(n % 0x100), ByteFor(n / 0x100 % 0x100), ByteFor(n / 0x1_0000 % 0x100), ByteFor(n / 0x100_0000))
  }

  lemma DigitsUnique(a: uint8, b: uint8, c: uint8, d: uint8)
    ensures var n := Digits(a, b, c, d);
            n % 0x100 == a && n / 0x100 % 0x100 == b && n / 0x1_0000 % 0x100 == c && n / 0x100_0000 == d
  {
    var n := Digits(a, b, c, d);
    assert n / 0x100 == b + 0x100 * c + 0x1_0000 * d;
    assert n / 0x1_0000 == c + 0x100 * d;
  }

  lemma DigitsOf(n: uint32)
    ensures Digits(n % 0x100, n / 0x100 % 0x100, n / 0x1_0000 % 0x100, n / 0x100_0000) == n
  {
    var m := n / 0x100;
    var l := n / 0x1_0000;
    assert m / 0x100 == l && l / 0x100 == n / 0x100_0000;
  }

  lemma ValueOfBytes(p: bv8, q: bv8, r: bv8, s: bv8)
    ensures Value(WordOf(p, q, r, s)) == Digits(ByteValue(p), ByteValue(q), ByteValue(r), ByteValue(s))
  {
    BytesRoundTrip(p, q, r, s);
  }

  /** Words and the numbers below 2^32 correspond one to one. */
  lemma ValueBijective(x: bv32, n: uint32)
    ensures Value(WordFor(n)) == n
    ensures WordFor(Value(x)) == x
  {
    ValueOfWord(n);
    WordOfValue(x);
  }

  lemma ValueOfWord(n: uint32)
    ensures Value(WordFor(n)) == n
  {
    var a, b, c, d := n % 0x100, n / 0x100 % 0x100, n / 0x1_0000 % 0x100, n / 0x100_0000;
    ValueOfBytes(ByteFor(a), ByteFor(b), ByteFor(c), ByteFor(d));
    ByteValueOf(a);
    ByteValueOf(b);
    ByteValueOf(c);
    ByteValueOf(d);
    DigitsOf(n);
  }

  lemma WordOfValue(x: bv32)
    ensures WordFor(Value(x)) == x
  {
    var b := Bytes4(x);
    DigitsUnique(ByteValue(b[0]), ByteValue(b[1]), ByteValue(b[2]), ByteValue(b[3]));
    ByteForOf(b[0]);
    ByteForOf(b[1]);
    ByteForOf(b[2]);
    ByteForOf(b[3]);
    WordRoundTrip(x);
  }

  /** MurmurHash3 as the hash of the sketches, which count in numbers. */
  function Digest(key: Key, seed: uint32): uint32 {
    Value(Murmur(key, WordFor(seed)))
  }

  /** The only four-byte key with digest n. */
  function KeyWithDigest(n: uint32, seed: uint32): (b: Key)
    ensures |b| == 4
  {
    KeyFor(WordFor(n), WordFor(seed))
  }

  lemma DigestBijective(b: Key, n: uint32, seed: uint32)
    requires |b| == 4
    ensures Digest(KeyWithDigest(n, seed), seed) == n
    ensures KeyWithDigest(Digest(b, seed), seed) == b
  {
    FourByteBijection(b, WordFor(seed), WordFor(n));
    ValueBijective(Murmur(b, WordFor(seed)), n);
  }

  // Counting the keys of one column.

  lemma DivisionUnique(x: nat, w: nat, q: nat, r: nat)
    requires r < w && x == q * w + r
    ensures Quotient(x, w) == q && x % w == r
  {
    var p, s := x / w, x % w;
    Euclid(x, w);
    assert (p - q) * w == r - s;
    if p > q {
      AtLeast(p - q, w);
    } else if p < q {
      assert (q - p) * w == s - r;
      AtLeast(q - p, w);
    }
  }

  lemma Euclid(x: nat, w: nat)
    requires w > 0
    ensures x == x / w * w + x % w && 0 <= x % w < w
  {
  }

  lemma AtLeast(k: nat, w: nat)
    requires k > 0
    ensures k * w >= w
  {
    assert (k - 1) * w >= 0;
  }

  lemma Monotone(a: nat, b: nat, w: nat)
    requires a <= b
    ensures a * w <= b * w
  {
    assert (b - a) * w >= 0;
  }

  lemma IndexFits(w: nat, n: nat, j: nat, t: nat)
    requires w * n == TWO_32 && j < w && t < n
    ensures Place(t, w, j) < TWO_32
  {
    assert (n - t - 1) * w >= 0;
    assert t * w >= 0;
  }

  function Place(t: nat, w: nat, j: nat): nat {
    t * w + j
  }

  function Quotient(x: nat, w: nat): nat
    requires w > 0
  {
    Euclid(x, w);
    x / w
  }

  lemma Recompose(x: uint32, w: nat, j: nat)
    requires w > 0 && x % w == j
    ensures Place(Quotient(x, w), w, j) == x
  {
    Euclid(x, w);
  }

  lemma IndexBelow(w: nat, n: nat, x: uint32)
    requires w * n == TWO_32 && w > 0
    ensures Quotient(x, w) < n
  {
    Euclid(x, w);
    var q := x / w;
    if q >= n {
      Monotone(n, q, w);
    }
  }

  /** The first m members of an enumerated family. */
  ghost function Enumerated(at: nat -> Key, m: nat): set<Key> {
    if m == 0 then {} else Enumerated(at, m - 1) + {at(m - 1)}
  }

  lemma {:induction false} EnumeratedUpTo(at: nat -> Key, index: Key -> nat, member: Key -> bool, n: nat, m: nat)
    requires m <= n
    requires forall t: nat :: t < n ==> member(at(t)) && index(at(t)) == t
    requires forall b, t :: member(b) && index(b) == t ==> at(t) == b
    ensures |Enumerated(at, m)| == m
    ensures forall b :: b in Enumerated(at, m) <==> member(b) && index(b) < m
  {
    if m > 0 {
      EnumeratedUpTo(at, index, member, n, m - 1);
    }
  }

  /** An enumeration with an index lists the whole family, each member once. */
  lemma {:induction false} EnumeratedExact(at: nat -> Key, index: Key -> nat, member: Key -> bool, n: nat)
    requires forall t: nat :: t < n ==> member(at(t)) && index(at(t)) == t
    requires forall b :: member(b) ==> at(index(b)) == b && index(b) < n
    ensures |Enumerated(at, n)| == n
    ensures forall b :: b in Enumerated(at, n) <==> member(b)
  {
    EnumeratedUpTo(at, index, member, n, n);
  }

  /** The t-th four-byte key of column j. */
  function KeyAt(seed: uint32, w: nat, j: nat, t: nat): Key {
    if Place(t, w, j) < TWO_32 then KeyWithDigest(Place(t, w, j), seed) else []
  }

  predicate InColumn(seed: uint32, w: nat, j: nat, b: Key)
    requires w > 0
  {
    |b| == 4 && Digest(b, seed) % w == j
  }

  function Index(seed: uint32, w: nat, b: Key): nat
    requires w > 0
  {
    Quotient(Digest(b, seed), w)
  }

  lemma KeyAtQuotient(seed: uint32, w: nat, j: nat, x: uint32)
    requires w > 0 && x % w == j
    ensures KeyAt(seed, w, j, Quotient(x, w)) == KeyWithDigest(x, seed)
  {
    Recompose(x, w, j);
  }

  lemma KeyAtIndex(seed: uint32, w: nat, j: nat, b: Key)
    requires w > 0 && InColumn(seed, w, j, b)
    ensures KeyAt(seed, w, j, Index(seed, w, b)) == b
  {
    KeyAtQuotient(seed, w, j, Digest(b, seed));
    DigestBijective(b, 0, seed);
  }

  lemma IndexOfKeyAt(seed: uint32, w: nat, n: nat, j: nat, t: nat)
    requires w * n == TWO_32 && j < w && t < n
    ensures InColumn(seed, w, j, KeyAt(seed, w, j, t)) && Index(seed, w, KeyAt(seed, w, j, t)) == t
  {
    IndexFits(w, n, j, t);
    DigestBijective(KeyAt(seed, w, j, t), Place(t, w, j), seed);
    DivisionUnique(Place(t, w, j), w, t, j);
  }

  /** Of all 2^32 four-byte keys, each of the w columns of a row receives exactly 2^32 / w, whatever
      the seed, when w divides 2^32, that is, when w is a power of two. */
  lemma ColumnsShareKeysEqually(seed: uint32, w: nat, n: nat, j: nat) returns (column: set<Key>)
    requires w * n == TWO_32 && j < w
    ensures forall b :: b in column <==> |b| == 4 && Digest(b, seed) % w == j
    ensures |column| == n
  {
    var at := (t: nat) => KeyAt(seed, w, j, t);
    var index := (b: Key) => Index(seed, w, b);
    var member := (b: Key) => InColumn(seed, w, j, b);
    forall t: nat | t < n ensures member(at(t)) && index(at(t)) == t {
      IndexOfKeyAt(seed, w, n, j, t);
    }
    forall b | member(b) ensures at(index(b)) == b && index(b) < n {
      KeyAtIndex(seed, w, j, b);
      IndexBelow(w, n, Digest(b, seed));
    }
    column := Enumerated(at, n);
    EnumeratedExact(at, index, member, n);
    forall b ensures b in column <==> InColumn(seed, w, j, b) {
      assert b in column <==> member(b);
    }
  }
}
