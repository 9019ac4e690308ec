/** Fixed-width words and byte strings, as the Go sources use them. */
module Words {
  const TWO_32: int := 0x1_0000_0000
  const TWO_63: int := 0x8000_0000_0000_0000
  const TWO_64: int := 0x1_0000_0000_0000_0000

  type uint8 = x: int | 0 <= x < 0x100
  type uint16 = x: int | 0 <= x < 0x1_0000
  type uint32 = x: int | 0 <= x < 0x1_0000_0000
  type uint64 = x: int | 0 <= x < 0x1_0000_0000_0000_0000

  type int32 = x: int | -0x8000_0000 <= x < 0x8000_0000
  type int64 = x: int | -0x8000_0000_0000_0000 <= x < 0x8000_0000_0000_0000

  /** A byte string such as an encoded flow key. */
  type Key = seq<bv8>

  function Max(a: int, b: int): int {
    if a >= b then a else b
  }

  function Min(a: int, b: int): int {
    if a <= b then a else b
  }

  /** uint32 addition, which wraps around. */
  function Add32(a: uint32, b: uint32): (r: uint32)
    ensures r == (a + b) % TWO_32
  {
    if a + b < TWO_32 then a + b else a + b - TWO_32
  }

  function Wrap64(x: nat): uint64 {
    x % TWO_64
  }

  /** uint64 addition, which wraps around. */
  function Add64(a: nat, b: nat): uint64 {
    Wrap64(a + b)
  }

  /** uint64(hi)<<32 | uint64(lo). */
  function Pack(hi: uint32, lo: uint32): (r: uint64)
    ensures r / TWO_32 == hi && r % TWO_32 == lo
  {
    hi * TWO_32 + lo
  }

  function Zeros(n: nat): (z: Key)
    ensures |z| == n
    ensures forall k :: 0 <= k < n ==> z[k] == 0
  {
    seq(n, _ => 0)
  }

  /** Go's built-in copy(dst, src): overwrites the first min(|dst|, |src|) bytes of dst. */
  function CopyInto(dst: Key, src: Key): (r: Key)
    ensures |r| == |dst|
    ensures |src| == |dst| ==> r == src
  {
    if |src| <= |dst| then src + dst[|src|..] else src[..|dst|]
  }

  function Pow2(n: nat): nat {
    if n == 0 then 1 else 2 * Pow2(n - 1)
  }

  lemma {:induction false} Pow2Mono(a: nat, b: nat)
    requires a <= b
    ensures 0 < Pow2(a) <= Pow2(b)
  {
    if a < b {
      Pow2Mono(a, b - 1);
    } else if a > 0 {
      Pow2Mono(a - 1, a - 1);
    }
  }

  lemma SubsetSize<T>(a: set<T>, b: set<T>)
    requires a <= b
    ensures |a| <= |b|
  {
    assert b == a + (b - a);
  }
}
