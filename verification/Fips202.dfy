/**
 Keccak as FIPS 202 defines it: on bit strings, every step of a round applied to the
 whole state at once. Nothing here knows about lanes, bytes or in-place updates.
 */
module Fips202 {
  import opened Arithmetic
  import opened Bits

  /** A state string; bit (x, y, z) of the state array is at 64(5y + x) + z. */
  type State = s: seq<bool> | |s| == 1600 witness seq(1600, k => false)

  function At(S: State, x: nat, y: nat, z: nat): bool
    requires x < 5 && y < 5 && z < 64
  {
    S[64 * (5 * y + x) + z]
  }

  // ---- section 3.2.1

  function C(S: State, x: nat, z: nat): bool
    requires x < 5 && z < 64
  {
    ((((At(S, x, 0, z) != At(S, x, 1, z)) != At(S, x, 2, z)) != At(S, x, 3, z)) != At(S, x, 4, z))
  }

  function D(S: State, x: nat, z: nat): bool
    requires x < 5 && z < 64
  {
    C(S, (x + 4) % 5, z) != C(S, (x + 1) % 5, (z + 63) % 64)
  }

  function Theta(S: State): State {
    seq(1600, k requires 0 <= k < 1600 => S[k] != D(S, k / 64 % 5, k % 64))
  }

  // ---- section 3.2.2

  /** The coordinates visited by steps 2 and 3 of the definition of rho. */
  function Walk(t: nat): (r: (nat, nat))
    ensures r.0 < 5 && r.1 < 5
  {
    if t == 0 then (1, 0) else var p := Walk(t - 1); (p.1, (2 * p.0 + 3 * p.1) % 5)
  }

  /** The first time at or after `t` that the walk visits (x, y); 24 when it does not. */
  function WalkTime(x: nat, y: nat, t: nat): nat
    decreases 24 - t
  {
    if t >= 24 then 24 else if Walk(t) == (x, y) then t else WalkTime(x, y, t + 1)
  }

  function Offset(x: nat, y: nat): (r: nat)
    ensures r < 64
  {
    if x == 0 && y == 0 then 0
    else var t := WalkTime(x, y, 0); (t + 1) * (t + 2) / 2 % 64
  }

  function RhoBit(S: State, x: nat, y: nat, z: nat): bool
    requires x < 5 && y < 5 && z < 64
  {
    At(S, x, y, (z + 64 - Offset(x, y)) % 64)
  }

  function Rho(S: State): State {
    seq(1600, k requires 0 <= k < 1600 => RhoBit(S, k / 64 % 5, k / 320, k % 64))
  }

  // ---- section 3.2.3

  function PiBit(S: State, x: nat, y: nat, z: nat): bool
    requires x < 5 && y < 5 && z < 64
  {
    At(S, (x + 3 * y) % 5, x, z)
  }

  function Pi(S: State): State {
    seq(1600, k requires 0 <= k < 1600 => PiBit(S, k / 64 % 5, k / 320, k % 64))
  }

  // ---- section 3.2.4

  function ChiBit(S: State, x: nat, y: nat, z: nat): bool
    requires x < 5 && y < 5 && z < 64
  {
    At(S, x, y, z) != (!At(S, (x + 1) % 5, y, z) && At(S, (x + 2) % 5, y, z))
  }

  function Chi(S: State): State {
    seq(1600, k requires 0 <= k < 1600 => ChiBit(S, k / 64 % 5, k / 320, k % 64))
  }

  // ---- section 3.2.5

  /** The register R of algorithm 5, as its eight bits R[0] to R[7]. */
  datatype Register = Register(r0: bool, r1: bool, r2: bool, r3: bool, r4: bool, r5: bool, r6: bool, r7: bool)

  /** A zero is put in front, and the bit that falls out at the end is added to R[0], R[4], R[5] and R[6]. */
  function LfsrStep(R: Register): Register {
    Register(R.r7, R.r0, R.r1, R.r2, R.r3 != R.r7, R.r4 != R.r7, R.r5 != R.r7, R.r6)
  }

  /** The register after `t` steps. */
  function Lfsr(t: nat): Register {
    if t == 0 then Register(true, false, false, false, false, false, false, false) else LfsrStep(Lfsr(t - 1))
  }

  function Rc(t: nat): bool {
    Lfsr(t % 255).r0
  }

  /** The word RC[ir] for w = 64: bit 2^j - 1 is rc(j + 7 ir), every other bit is zero. */
  function RC(ir: nat): Lane {
    seq(64, z requires 0 <= z < 64 =>
      match z
      case 0 => Rc(7 * ir)
      case 1 => Rc(1 + 7 * ir)
      case 3 => Rc(2 + 7 * ir)
      case 7 => Rc(3 + 7 * ir)
      case 15 => Rc(4 + 7 * ir)
      case 31 => Rc(5 + 7 * ir)
      case 63 => Rc(6 + 7 * ir)
      case _ => false)
  }

  function Iota(S: State, ir: nat): State
    requires ir < 24
  {
    seq(1600, k requires 0 <= k < 1600 => if k < 64 then S[k] != RC(ir)[k] else S[k])
  }

  // ---- coordinates

  /** A bit position gives back its coordinates. */
  lemma Coordinates(x: nat, y: nat, z: nat)
    requires x < 5 && y < 5 && z < 64
    ensures var k := 64 * (5 * y + x) + z; k / 64 % 5 == x && k / 320 == y && k % 64 == z && k < 1600
  {
    var k := 64 * (5 * y + x) + z;
    assert k / 64 == 5 * y + x;
  }

  lemma RhoAt(S: State, x: nat, y: nat, z: nat)
    requires x < 5 && y < 5 && z < 64
    ensures At(Rho(S), x, y, z) == RhoBit(S, x, y, z)
  {
    hide RhoBit;
    Coordinates(x, y, z);
  }

  /** Pi and the step of the walk undo each other. */
  lemma Unmix(x: nat, y: nat)
    requires x < 5 && y < 5
    ensures (y + 3 * ((2 * x + 3 * y) % 5)) % 5 == x
    ensures (2 * ((x + 3 * y) % 5) + 3 * x) % 5 == y
  {
    var m, k := (2 * x + 3 * y) / 5, (x + 3 * y) / 5;
    assert (2 * x + 3 * y) % 5 == 2 * x + 3 * y - 5 * m;
    assert (x + 3 * y) % 5 == x + 3 * y - 5 * k;
    ModOf(5, x + 2 * y - 3 * m, x);
    ModOf(5, x + y - 2 * k, y);
  }

  // ---- sections 3.3 and 3.4

  function Round(S: State, ir: nat): State
    requires ir < 24
  {
    Iota(Chi(Pi(Rho(Theta(S)))), ir)
  }

  /** The first `n` rounds. */
  function Rounds(S: State, n: nat): State
    requires n <= 24
  {
    if n == 0 then S else Round(Rounds(S, n - 1), n - 1)
  }

  function KeccakP(S: State): State {
    Rounds(S, 24)
  }

  // ---- sections 4 and 5.1

  /** Combines a block of at most 1600 bits with the front of a state. */
  function XorInto(S: State, p: seq<bool>): State
    requires |p| <= 1600
  {
    seq(1600, k requires 0 <= k < 1600 => if k < |p| then S[k] != p[k] else S[k])
  }

  /** The absorbing phase: the state after every r-bit block of `P`. */
  function Absorb(r: nat, P: seq<bool>): State
    requires 0 < r <= 1600 && |P| % r == 0
  {
    if P == [] then Zeros(1600)
    else
      LastBlock(r, |P|);
      var n := |P| - r;
      KeccakP(XorInto(Absorb(r, P[..n]), P[n..]))
  }

  lemma LastBlock(r: nat, n: nat)
    requires 0 < r && 0 < n && n % r == 0
    ensures n >= r && (n - r) % r == 0
  {
    var q := n / r;
    assert n == q * r;
    assert n - r == (q - 1) * r;
    ModOf(r, q - 1, 0);
  }

  /** The padding rule: a one, as few zeros as possible, and a one. */
  function Pad101(r: nat, m: nat): (p: seq<bool>)
    requires r >= 2
    ensures (m + |p|) % r == 0
  {
    var j := (2 * r - 2 - m % r) % r;
    PadLength(r, m);
    [true] + Zeros(j) + [true]
  }

  lemma PadLength(r: nat, m: nat)
    requires r >= 2
    ensures (m + (2 * r - 2 - m % r) % r + 2) % r == 0
  {
    var q, a := m / r, m % r;
    assert m == q * r + a;
    if a + 2 <= r {
      assert 2 * r - 2 - a == r + (r - 2 - a);
      ModOf(r, 1, r - 2 - a);
      assert m + (r - 2 - a) + 2 == (q + 1) * r;
      ModOf(r, q + 1, 0);
    } else {
      ModOf(r, 0, 2 * r - 2 - a);
      assert m + (2 * r - 2 - a) + 2 == (q + 2) * r;
      ModOf(r, q + 2, 0);
    }
  }

  /** The sponge construction for an output of `d` bits that one squeeze provides. */
  function Sponge(r: nat, N: seq<bool>, d: nat): (Z: seq<bool>)
    requires 2 <= r <= 1600 && d <= r
    ensures |Z| == d
  {
    Absorb(r, N + Pad101(r, |N|))[..d]
  }
}
