/** Conversion between bytes as bit-vectors, which the hashes work on, and as numbers. */
module Bytes {
  import opened Words

  /** The bits of a byte, lowest first. */
  function BitsOf(b: bv8): (r: seq<bool>) {
    [b & 1 != 0, b & 2 != 0, b & 4 != 0, b & 8 != 0, b & 16 != 0, b & 32 != 0, b & 64 != 0, b & 128 != 0]
  }

  function Pick(bit: bool, b: bv8): bv8 { if bit then b else 0 }

  function FromBits(r: seq<bool>): bv8
    requires |r| == 8
  {
    Pick(r[0], 1) | Pick(r[1], 2) | Pick(r[2], 4) | Pick(r[3], 8)
    | Pick(r[4], 16) | Pick(r[5], 32) | Pick(r[6], 64) | Pick(r[7], 128)
  }

  lemma BitsOfFromBits(r: seq<bool>)
    requires |r| == 8
    ensures BitsOf(FromBits(r)) == r
  {
  }

  lemma FromBitsOf(b: bv8)
    ensures FromBits(BitsOf(b)) == b
  {
  }

  function BinaryValue(r: seq<bool>): nat {
    if r == [] then 0 else (if r[0] then 1 else 0) + 2 * BinaryValue(r[1..])
  }

  function Binary(n: nat, k: nat): (r: seq<bool>)
    ensures |r| == k
  {
    if k == 0 then [] else [n % 2 == 1] + Binary(n / 2, k - 1)
  }

  lemma {:induction false} BinaryOfValue(r: seq<bool>)
    ensures Binary(BinaryValue(r), |r|) == r
  {
    if r != [] {
      BinaryOfValue(r[1..]);
    }
  }

  lemma {:induction false} ValueOfBinary(n: nat, k: nat)
    requires n < Pow2(k)
    ensures BinaryValue(Binary(n, k)) == n
  {
    if k > 0 {
      ValueOfBinary(n / 2, k - 1);
      assert Binary(n, k)[1..] == Binary(n / 2, k - 1);
    }
  }

  lemma {:induction false} BinaryValueFits(r: seq<bool>)
    ensures BinaryValue(r) < Pow2(|r|)
  {
    if r != [] {
      BinaryValueFits(r[1..]);
    }
  }

  lemma Pow2Of8()
    ensures Pow2(8) == 0x100
  {
    assert Pow2(4) == 16;
  }

  function ByteValue(b: bv8): uint8 {
    BinaryValueFits(BitsOf(b));
    Pow2Of8();
    BinaryValue(BitsOf(b))
  }

  function ByteFor(n: uint8): bv8 {
    FromBits(Binary(n, 8))
  }

  lemma ByteValueOf(n: uint8)
    ensures ByteValue(ByteFor(n)) == n
  {
    BitsOfFromBits(Binary(n, 8));
    Pow2Of8();
    ValueOfBinary(n, 8);
  }

  lemma ByteForOf(b: bv8)
    ensures ByteFor(ByteValue(b)) == b
  {
    BinaryOfValue(BitsOf(b));
    FromBitsOf(b);
  }

  function Bit(b: bool): uint8 { if b then 1 else 0 }

  lemma {:induction false} BinaryValueOfFour(r: seq<bool>)
    requires |r| >= 4
    ensures BinaryValue(r) == Bit(r[0]) + 2 * Bit(r[1]) + 4 * Bit(r[2]) + 8 * Bit(r[3]) + 16 * BinaryValue(r[4..])
  {
    assert BinaryValue(r[3..]) == Bit(r[3]) + 2 * BinaryValue(r[3..][1..]);
    assert BinaryValue(r[2..]) == Bit(r[2]) + 2 * BinaryValue(r[2..][1..]);
    assert BinaryValue(r[1..]) == Bit(r[1]) + 2 * BinaryValue(r[1..][1..]);
  }

  lemma {:induction false} BinaryValueOfByte(r: seq<bool>)
    requires |r| == 8
    ensures BinaryValue(r) == Bit(r[0]) + 2 * Bit(r[1]) + 4 * Bit(r[2]) + 8 * Bit(r[3]) + 16 * Bit(r[4])
                              + 32 * Bit(r[5]) + 64 * Bit(r[6]) + 128 * Bit(r[7])
  {
    BinaryValueOfFour(r);
    BinaryValueOfFour(r[4..]);
  }

  lemma BitsAddUp(b: bv8)
    ensures b as int == Bit(b & 1 != 0) + 2 * Bit(b & 2 != 0) + 4 * Bit(b & 4 != 0) + 8 * Bit(b & 8 != 0)
                        + 16 * Bit(b & 16 != 0) + 32 * Bit(b & 32 != 0) + 64 * Bit(b & 64 != 0)
                        + 128 * Bit(b & 128 != 0)
  {
  }

  /** Both conversions are the numeric ones. */
  lemma ByteValueIsInt(b: bv8)
    ensures ByteValue(b) == b as int
  {
    BinaryValueOfByte(BitsOf(b));
    BitsAddUp(b);
  }

  lemma ByteForIsByte(n: uint8)
    ensures ByteFor(n) == n as bv8
  {
    ByteValueOf(n);
    ByteValueIsInt(ByteFor(n));
    var b := ByteFor(n);
    assert (b as int) as bv8 == b;
  }
}
