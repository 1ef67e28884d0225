/**
 Machine words and bytes as the bits they hold, least significant bit first.

 A `uint64_t` is a Lane of 64 bits and a `uint8_t` is a Byte below 256. The C operators
 become functions on bits: a left shift drops what leaves the top, a right shift fills
 with zeros.
 */
module Bits {

  type Byte = n: nat | n < 256

  type Lane = s: seq<bool> | |s| == 64 witness seq(64, z => false)

  /** `k` zero bits. */
  function Zeros(k: nat): (r: seq<bool>)
    ensures |r| == k && forall z :: 0 <= z < k ==> !r[z]
  {
    seq(k, z => false)
  }

  /** The `k` low bits of `n`. */
  function BitsOf(n: nat, k: nat): (r: seq<bool>)
    ensures |r| == k
  {
    if k == 0 then [] else [n % 2 == 1] + BitsOf(n / 2, k - 1)
  }

  /** The number whose low bits are `bits` and whose other bits are zero. */
  function ValueOf(bits: seq<bool>): nat {
    if bits == [] then 0 else (if bits[0] then 1 else 0) + 2 * ValueOf(bits[1..])
  }

  function Pow2(k: nat): (r: nat)
    ensures r > 0
  {
    if k == 0 then 1 else 2 * Pow2(k - 1)
  }

  lemma {:induction false} ValueBelow(bits: seq<bool>)
    ensures ValueOf(bits) < Pow2(|bits|)
  {
    if bits != [] {
      ValueBelow(bits[1..]);
    }
  }

  lemma {:induction false} BitsOfValue(bits: seq<bool>)
    ensures BitsOf(ValueOf(bits), |bits|) == bits
  {
    if bits != [] {
      BitsOfValue(bits[1..]);
      assert ValueOf(bits) / 2 == ValueOf(bits[1..]);
      assert bits == [bits[0]] + bits[1..];
    }
  }

  lemma {:induction false} ValueOfBits(n: nat, k: nat)
    requires n < Pow2(k)
    ensures ValueOf(BitsOf(n, k)) == n
  {
    if k > 0 {
      ValueOfBits(n / 2, k - 1);
      assert BitsOf(n, k)[1..] == BitsOf(n / 2, k - 1);
    }
  }

  lemma {:induction false} BitsOfZero(k: nat)
    ensures BitsOf(0, k) == Zeros(k)
  {
    if k > 0 {
      BitsOfZero(k - 1);
    }
  }

  /** Widening an unsigned number adds zero bits. */
  lemma {:induction false} Widen(n: nat, k: nat, extra: nat)
    requires n < Pow2(k)
    ensures BitsOf(n, k + extra) == BitsOf(n, k) + Zeros(extra)
  {
    if k == 0 {
      BitsOfZero(extra);
      assert BitsOf(n, 0) + Zeros(extra) == Zeros(extra);
    } else {
      Widen(n / 2, k - 1, extra);
      assert [n % 2 == 1] + (BitsOf(n / 2, k - 1) + Zeros(extra)) == BitsOf(n, k) + Zeros(extra);
    }
  }

  lemma BytePow()
    ensures Pow2(8) == 256
  {
    assert Pow2(4) == 16;
  }

  lemma {:induction false} Pow2Add(a: nat, b: nat)
    ensures Pow2(a + b) == Pow2(a) * Pow2(b)
  {
    if a > 0 {
      Pow2Add(a - 1, b);
    }
  }

  lemma WordPows()
    ensures Pow2(8) == 0x100 && Pow2(16) == 0x1_0000 && Pow2(32) == 0x1_0000_0000
    ensures Pow2(64) == 0x1_0000_0000_0000_0000
  {
    hide Pow2;
    BytePow();
    Pow2Add(8, 8);
    Pow2Add(16, 16);
    Pow2Add(32, 32);
  }

  // ---- bytes

  function ByteBits(b: Byte): (r: seq<bool>)
    ensures |r| == 8
  {
    BitsOf(b, 8)
  }

  function ByteOfBits(bits: seq<bool>): (b: Byte)
    requires |bits| == 8
    ensures ByteBits(b) == bits
  {
    ValueBelow(bits);
    BytePow();
    BitsOfValue(bits);
    ValueOf(bits)
  }

  /** A byte string as a bit string: byte after byte, each least significant bit first. */
  function BytesToBits(m: seq<Byte>): (r: seq<bool>)
    ensures |r| == 8 * |m|
  {
    if m == [] then [] else BytesToBits(m[..|m| - 1]) + ByteBits(m[|m| - 1])
  }

  lemma {:induction false} BytesToBitsConcat(a: seq<Byte>, b: seq<Byte>)
    ensures BytesToBits(a + b) == BytesToBits(a) + BytesToBits(b)
  {
    if b == [] {
      assert a + b == a;
    } else {
      var n := |b| - 1;
      assert (a + b)[..|a + b| - 1] == a + b[..n];
      BytesToBitsConcat(a, b[..n]);
    }
  }

  lemma {:induction false} ByteOfBitsUnique(b: Byte)
    ensures ByteOfBits(ByteBits(b)) == b
  {
    BytePow();
    ValueOfBits(b, 8);
  }

  lemma {:induction false} BytesToBitsAt(m: seq<Byte>, i: nat, z: nat)
    requires i < |m| && z < 8
    ensures BytesToBits(m)[8 * i + z] == ByteBits(m[i])[z]
  {
    if i < |m| - 1 {
      BytesToBitsAt(m[..|m| - 1], i, z);
    }
  }

  /** A bit string of whole bytes as bytes. */
  function BitsToBytes(bits: seq<bool>): (m: seq<Byte>)
    requires |bits| % 8 == 0
    ensures |m| == |bits| / 8 && BytesToBits(m) == bits
  {
    if bits == [] then []
    else
      var n := |bits| - 8;
      var m := BitsToBytes(bits[..n]) + [ByteOfBits(bits[n..])];
      assert m[..|m| - 1] == BitsToBytes(bits[..n]);
      assert bits == bits[..n] + bits[n..];
      m
  }

  /** Different byte strings have different bits. */
  lemma {:induction false} BytesToBitsInjective(a: seq<Byte>, b: seq<Byte>)
    requires BytesToBits(a) == BytesToBits(b)
    ensures a == b
  {
    if a != [] {
      var n := |a| - 1;
      var x, y := BytesToBits(a), BytesToBits(b);
      assert x[..8 * n] == BytesToBits(a[..n]) && y[..8 * n] == BytesToBits(b[..n]);
      assert x[8 * n..] == ByteBits(a[n]) && y[8 * n..] == ByteBits(b[n]);
      BytesToBitsInjective(a[..n], b[..n]);
      ByteOfBitsUnique(a[n]);
      ByteOfBitsUnique(b[n]);
      assert a == a[..n] + [a[n]] && b == b[..n] + [b[n]];
    }
  }

  // ---- uint64_t operators

  function Xor(a: Lane, b: Lane): Lane {
    seq(64, z requires 0 <= z < 64 => a[z] != b[z])
  }

  function And(a: Lane, b: Lane): Lane {
    seq(64, z requires 0 <= z < 64 => a[z] && b[z])
  }

  function Or(a: Lane, b: Lane): Lane {
    seq(64, z requires 0 <= z < 64 => a[z] || b[z])
  }

  function Not(a: Lane): Lane {
    seq(64, z requires 0 <= z < 64 => !a[z])
  }

  function Shl(a: Lane, n: nat): Lane {
    seq(64, z requires 0 <= z < 64 => z >= n && a[z - n])
  }

  function Shr(a: Lane, n: nat): Lane {
    seq(64, z requires 0 <= z < 64 => z + n < 64 && a[z + n])
  }

  /** A number below 2^64 as a word. */
  function LaneOf(n: nat): Lane {
    BitsOf(n, 64)
  }
}
