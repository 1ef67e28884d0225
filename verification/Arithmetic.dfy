/** Arithmetic the other modules share: division facts and the 32-bit `int`. */
module Arithmetic {

  lemma ModOf(r: nat, q: int, a: nat)
    requires a < r
    ensures (q * r + a) % r == a && (q * r + a) / r == q
  {
    var n := q * r + a;
    var k := n / r - q;
    assert k * r == a - n % r by {
      assert n == (n / r) * r + n % r;
      assert k * r == (n / r) * r - q * r;
    }
    NoMultipleWithin(r, k);
  }

  lemma NoMultipleWithin(r: nat, k: int)
    requires 0 < k * r + r && k * r < r
    ensures k == 0
  {
    assert k >= 1 ==> k * r >= r;
    assert k <= -1 ==> k * r + r <= 0;
  }

  /** A signed 32-bit result: the value modulo 2^32, in two's complement. */
  function Int32(n: int): (r: int)
    ensures -0x8000_0000 <= r < 0x8000_0000
    ensures r % 0x1_0000_0000 == n % 0x1_0000_0000
  {
    (n + 0x8000_0000) % 0x1_0000_0000 - 0x8000_0000
  }
}
