/**
 The permutation of src/signing/sha3.c: 25 words, rewritten in place.
 */
module KeccakF {
  import opened Arithmetic
  import opened Bits
  import F = Fips202
  import C = RoundConstants

  /** The state string held by 25 words. */
  function Flatten(s: seq<Lane>): (S: F.State)
    requires |s| == 25
  {
    seq(1600, k requires 0 <= k < 1600 => s[k / 64][k % 64])
  }

  const ROTC: seq<nat> := [
    1, 3, 6, 10, 15, 21, 28, 36, 45, 55, 2, 14, 27, 41, 56, 8, 25, 43, 62, 18, 39, 61, 20, 44
  ]

  const PILN: seq<nat> := [
    10, 7, 11, 17, 18, 3, 5, 16, 8, 21, 24, 4, 15, 23, 19, 13, 12, 2, 20, 14, 22, 9, 6, 1
  ]

  function Rotl(w: Lane, n: nat): Lane
    requires n < 64
  {
    Or(Shl(w, n), Shr(w, 64 - n))
  }

  lemma RotlBit(w: Lane, n: nat, z: nat)
    requires 0 < n < 64 && z < 64
    ensures Rotl(w, n)[z] == w[(z + 64 - n) % 64]
  {
    if z < n {
      assert (z + 64 - n) % 64 == z + 64 - n;
    } else {
      assert (z + 64 - n) % 64 == z - n;
    }
  }

  // ---- theta

  function Parity(s: seq<Lane>, x: nat): Lane
    requires |s| == 25 && x < 5
  {
    Xor(Xor(Xor(Xor(s[x], s[x + 5]), s[x + 10]), s[x + 15]), s[x + 20])
  }

  function Mix(s: seq<Lane>, x: nat): Lane
    requires |s| == 25 && x < 5
  {
    Xor(Parity(s, (x + 4) % 5), Rotl(Parity(s, (x + 1) % 5), 1))
  }

  lemma ParityBit(s: seq<Lane>, x: nat, z: nat)
    requires |s| == 25 && x < 5 && z < 64
    ensures Parity(s, x)[z] == F.C(Flatten(s), x, z)
  {
    var S := Flatten(s);
    assert forall y: nat | y < 5 :: F.At(S, x, y, z) == s[5 * y + x][z];
    assert F.At(S, x, 0, z) == s[x][z] && F.At(S, x, 1, z) == s[x + 5][z] && F.At(S, x, 2, z) == s[x + 10][z]
        && F.At(S, x, 3, z) == s[x + 15][z] && F.At(S, x, 4, z) == s[x + 20][z];
  }

  lemma MixBit(s: seq<Lane>, x: nat, z: nat)
    requires |s| == 25 && x < 5 && z < 64
    ensures Mix(s, x)[z] == F.D(Flatten(s), x, z)
  {
    ParityBit(s, (x + 4) % 5, z);
    RotlBit(Parity(s, (x + 1) % 5), 1, z);
    ParityBit(s, (x + 1) % 5, (z + 63) % 64);
  }

  lemma ThetaBit(s: seq<Lane>, r: seq<Lane>, k: nat)
    requires |s| == |r| == 25 && k < 1600
    requires r[k / 64] == Xor(s[k / 64], Mix(s, k / 64 % 5))
    ensures Flatten(r)[k] == F.Theta(Flatten(s))[k]
  {
    MixBit(s, k / 64 % 5, k % 64);
  }

  lemma ThetaLanes(s: seq<Lane>, r: seq<Lane>)
    requires |s| == |r| == 25
    requires forall j :: 0 <= j < 25 ==> r[j] == Xor(s[j], Mix(s, j % 5))
    ensures Flatten(r) == F.Theta(Flatten(s))
  {
    hide *;
    forall k | 0 <= k < 1600
      ensures Flatten(r)[k] == F.Theta(Flatten(s))[k]
    {
      ThetaBit(s, r, k);
    }
  }

  /** `s[j + x] ^= t` for every row. */
  method MixColumn(s: array<Lane>, x: nat, t: Lane)
    requires s.Length == 25 && x < 5
    modifies s
    ensures forall m :: 0 <= m < 25 ==> s[m] == if m % 5 == x then Xor(old(s[m]), t) else old(s[m])
  {
    hide *;
    var j := 0;
    while j < 25
      invariant 0 <= j <= 25 && j % 5 == 0
      invariant forall m :: 0 <= m < 25 ==> s[m] == if m % 5 == x && m < j then Xor(old(s[m]), t) else old(s[m])
    {
      s[j + x] := Xor(s[j + x], t);
      j := j + 5;
    }
  }

  method Parities(s: array<Lane>, bc: array<Lane>)
    requires s.Length == 25 && bc.Length == 5 && s != bc
    modifies bc
    ensures forall x :: 0 <= x < 5 ==> bc[x] == Parity(s[..], x)
  {
    hide Xor;
    for i := 0 to 5
      invariant forall x :: 0 <= x < i ==> bc[x] == Parity(s[..], x)
    {
      bc[i] := Xor(Xor(Xor(Xor(s[i], s[i + 5]), s[i + 10]), s[i + 15]), s[i + 20]);
    }
  }

  method Theta(s: array<Lane>, bc: array<Lane>)
    requires s.Length == 25 && bc.Length == 5 && s != bc
    modifies s, bc
    ensures Flatten(s[..]) == F.Theta(old(Flatten(s[..])))
  {
    hide Xor, Parity, Rotl, Flatten, F.Theta;
    ghost var was := s[..];
    Parities(s, bc);
    for i := 0 to 5
      invariant forall j :: 0 <= j < 25 ==> s[j] == if j % 5 < i then Xor(was[j], Mix(was, j % 5)) else was[j]
      invariant forall x :: 0 <= x < 5 ==> bc[x] == Parity(was, x)
    {
      var t := Xor(bc[(i + 4) % 5], Rotl(bc[(i + 1) % 5], 1));
      MixColumn(s, i, t);
    }
    ThetaLanes(was, s[..]);
  }

  // ---- rho and pi

  function Piln(i: nat): (j: nat)
    requires i < 24
    ensures 0 < j < 25
  {
    PILN[i]
  }

  function Rotc(i: nat): (n: nat)
    requires i < 24
    ensures 0 < n < 64
  {
    ROTC[i]
  }

  /** The word that step `i` of the loop carries: where `t` was read from. */
  function Source(i: nat): (j: nat)
    requires i < 24
    ensures 0 < j < 25
  {
    if i == 0 then 1 else Piln(i - 1)
  }

  /** The step that writes word `j`: the 24-cycle reaches every word but the first. */
  function Step(j: nat): (i: nat)
    requires 0 < j < 25
    ensures i < 24 && Piln(i) == j
  {
    [23, 17, 5, 11, 6, 22, 1, 8, 21, 0, 2, 16, 15, 19, 12, 7, 3, 4, 14, 18, 9, 20, 13, 10][j - 1]
  }

  /** No word is written twice. */
  lemma WrittenOnce(i: nat)
    requires i < 24
    ensures Step(Piln(i)) == i
  {
    match i {
      case 0 => case 1 => case 2 => case 3 => case 4 => case 5 => case 6 => case 7 =>
      case 8 => case 9 => case 10 => case 11 => case 12 => case 13 => case 14 => case 15 =>
      case 16 => case 17 => case 18 => case 19 => case 20 => case 21 => case 22 => case _ =>
    }
  }

  lemma NotYetWritten(i: nat)
    requires i < 24
    ensures forall k :: 0 <= k < i ==> Piln(k) != Piln(i)
  {
    hide Piln, Step;
    WrittenOnce(i);
    forall k | 0 <= k < i
      ensures Piln(k) != Piln(i)
    {
      WrittenOnce(k);
    }
  }

  /** The cycle closes: the last word written is the first one read. */
  lemma CycleCloses()
    ensures Piln(23) == 1
  {
  }

  lemma SourcesDistinct(t: nat, i: nat)
    requires t < i < 24
    ensures Source(t) != Source(i)
  {
    hide Piln, Step;
    CycleCloses();
    WrittenOnce(i - 1);
    WrittenOnce(if t == 0 then 23 else t - 1);
  }

  /** One step of the walk in the definition of rho is one step along the cycle. */
  lemma NextOnCycle(i: nat)
    requires i < 24
    ensures Piln(i) % 5 == Source(i) / 5
    ensures Piln(i) / 5 == (2 * (Source(i) % 5) + 3 * (Source(i) / 5)) % 5
  {
    match i {
      case 0 => case 1 => case 2 => case 3 => case 4 => case 5 => case 6 => case 7 =>
      case 8 => case 9 => case 10 => case 11 => case 12 => case 13 => case 14 => case 15 =>
      case 16 => case 17 => case 18 => case 19 => case 20 => case 21 => case 22 => case _ =>
    }
  }

  lemma {:induction false} WalkAt(i: nat)
    requires i < 24
    ensures F.Walk(i) == (Source(i) % 5, Source(i) / 5)
  {
    hide Piln;
    if i > 0 {
      WalkAt(i - 1);
      NextOnCycle(i - 1);
    }
  }

  lemma {:induction false} WalkFinds(i: nat, t: nat)
    requires t <= i < 24
    ensures F.WalkTime(Source(i) % 5, Source(i) / 5, t) == i
    decreases i - t
  {
    hide Piln;
    WalkAt(i);
    WalkAt(t);
    if t < i {
      SourcesDistinct(t, i);
      WalkFinds(i, t + 1);
    }
  }

  lemma NextRotc(i: nat)
    requires 0 < i < 24
    ensures Rotc(i) == (Rotc(i - 1) + i + 1) % 64 && Rotc(0) == 1
  {
  }

  lemma Triangular(i: nat)
    ensures (i + 1) * (i + 2) / 2 % 64 == (i * (i + 1) / 2 % 64 + i + 1) % 64
  {
    EvenProduct(i);
    var h := i * (i + 1) / 2;
    assert (i + 1) * (i + 2) == 2 * (h + i + 1);
    var b := h % 64 + i + 1;
    ModOf(64, h / 64 + b / 64, b % 64);
  }

  lemma {:induction false} EvenProduct(i: nat)
    ensures 2 * (i * (i + 1) / 2) == i * (i + 1)
  {
    if i > 0 {
      EvenProduct(i - 1);
      var h := (i - 1) * i / 2;
      assert i * (i + 1) == (i - 1) * i + 2 * i == 2 * (h + i);
    }
  }

  lemma {:induction false} RotcIsTriangular(i: nat)
    requires i < 24
    ensures Rotc(i) == (i + 1) * (i + 2) / 2 % 64
  {
    hide Rotc;
    NextRotc(if i == 0 then 1 else i);
    if i > 0 {
      RotcIsTriangular(i - 1);
      Triangular(i);
    }
  }

  /** Step `i` turns the lane it read by exactly the offset FIPS 202 gives that lane. */
  lemma RotcIsOffset(i: nat)
    requires i < 24
    ensures F.Offset(Source(i) % 5, Source(i) / 5) == Rotc(i)
  {
    hide Piln, Rotc;
    WalkFinds(i, 0);
    RotcIsTriangular(i);
  }

  /** What the loop leaves: word 0 in place, every other word moved once and turned. */
  ghost predicate Turned(was: seq<Lane>, s: seq<Lane>)
    requires |was| == |s| == 25
  {
    s[0] == was[0] && forall i :: 0 <= i < 24 ==> s[Piln(i)] == Rotl(was[Source(i)], Rotc(i))
  }

  lemma FlattenAt(s: seq<Lane>, x: nat, y: nat, z: nat)
    requires |s| == 25 && x < 5 && y < 5 && z < 64
    ensures F.At(Flatten(s), x, y, z) == s[5 * y + x][z]
  {
  }

  lemma OffsetOrigin()
    ensures F.Offset(0, 0) == 0
  {
  }

  lemma RhoPiWord(was: seq<Lane>, s: seq<Lane>, j: nat, z: nat)
    requires |was| == |s| == 25 && Turned(was, s) && j < 25 && z < 64
    ensures s[j][z] == F.PiBit(F.Rho(Flatten(was)), j % 5, j / 5, z)
  {
    hide Piln, Rotc, Rotl, Flatten, Source, Step, F.Rho, F.At, F.Offset;
    var S := Flatten(was);
    if j == 0 {
      F.RhoAt(S, 0, 0, z);
      OffsetOrigin();
      FlattenAt(was, 0, 0, z);
    } else {
      var i := Step(j);
      NextOnCycle(i);
      RotcIsOffset(i);
      var x, y := Source(i) % 5, Source(i) / 5;
      F.Unmix(x, y);
      F.RhoAt(S, x, y, z);
      RotlBit(was[Source(i)], Rotc(i), z);
      FlattenAt(was, x, y, (z + 64 - Rotc(i)) % 64);
    }
  }

  lemma RhoPiBit(was: seq<Lane>, s: seq<Lane>, k: nat)
    requires |was| == |s| == 25 && Turned(was, s) && k < 1600
    ensures Flatten(s)[k] == F.Pi(F.Rho(Flatten(was)))[k]
  {
    hide Turned, F.Rho, F.PiBit;
    RhoPiWord(was, s, k / 64, k % 64);
    assert k / 64 / 5 == k / 320;
  }

  lemma RhoPiLanes(was: seq<Lane>, s: seq<Lane>)
    requires |was| == |s| == 25 && Turned(was, s)
    ensures Flatten(s) == F.Pi(F.Rho(Flatten(was)))
  {
    hide *;
    forall k | 0 <= k < 1600
      ensures Flatten(s)[k] == F.Pi(F.Rho(Flatten(was)))[k]
    {
      RhoPiBit(was, s, k);
    }
  }

  /** The loop before step `i`: words written so far are turned, the others untouched, `t` is in hand. */
  ghost predicate Carrying(was: seq<Lane>, s: seq<Lane>, t: Lane, i: nat)
    requires |was| == |s| == 25 && i <= 24
  {
    && (i < 24 ==> t == was[Source(i)])
    && (forall k :: 0 <= k < i ==> s[Piln(k)] == Rotl(was[Source(k)], Rotc(k)))
    && (forall j :: 0 <= j < 25 && (j == 0 || Step(j) >= i) ==> s[j] == was[j])
  }

  lemma CarryOn(was: seq<Lane>, s: seq<Lane>, t: Lane, i: nat)
    requires |was| == |s| == 25 && i < 24 && Carrying(was, s, t, i)
    ensures Carrying(was, s[Piln(i) := Rotl(t, Rotc(i))], s[Piln(i)], i + 1)
  {
    hide Piln, Step, Rotl, Rotc, Source;
    WrittenOnce(i);
    NotYetWritten(i);
    if i < 23 {
      NextSource(i);
    }
    var r := s[Piln(i) := Rotl(t, Rotc(i))];
    assert s[Piln(i)] == was[Piln(i)];
    forall j | 0 <= j < 25 && (j == 0 || Step(j) >= i + 1)
      ensures r[j] == was[j]
    {
      assert j != Piln(i);
    }
  }

  lemma NextSource(i: nat)
    requires i < 23
    ensures Source(i + 1) == Piln(i)
  {
  }

  method RhoPi(s: array<Lane>, bc: array<Lane>)
    requires s.Length == 25 && bc.Length == 5 && s != bc
    modifies s, bc
    ensures Flatten(s[..]) == F.Pi(F.Rho(old(Flatten(s[..]))))
  {
    hide Rotl, Piln, Rotc, Flatten, Step, F.Pi, F.Rho, Carrying, Turned;
    ghost var was := s[..];
    var t := s[1];
    FirstCarry(was);
    for i := 0 to 24
      invariant Carrying(was, s[..], t, i)
    {
      CarryOn(was, s[..], t, i);
      ghost var mid := s[..];
      var j := Piln(i);
      bc[0] := s[j];
      s[j] := Rotl(t, Rotc(i));
      t := bc[0];
      assert s[..] == mid[j := s[j]];
    }
    LastCarry(was, s[..], t);
    RhoPiLanes(was, s[..]);
  }

  lemma FirstCarry(was: seq<Lane>)
    requires |was| == 25
    ensures Carrying(was, was, was[1], 0)
  {
  }

  lemma LastCarry(was: seq<Lane>, s: seq<Lane>, t: Lane)
    requires |was| == |s| == 25 && Carrying(was, s, t, 24)
    ensures Turned(was, s)
  {
  }

  // ---- chi

  /** Word `i` of the row that starts at word `j`. */
  function ChiWord(s: seq<Lane>, j: nat, i: nat): Lane
    requires |s| == 25 && j <= 20 && i < 5
  {
    Xor(s[j + i], And(Not(s[j + (i + 1) % 5]), s[j + (i + 2) % 5]))
  }

  lemma ChiWordBit(s: seq<Lane>, x: nat, y: nat, z: nat)
    requires |s| == 25 && x < 5 && y < 5 && z < 64
    ensures ChiWord(s, 5 * y, x)[z] == F.ChiBit(Flatten(s), x, y, z)
  {
    hide Flatten, F.At;
    FlattenAt(s, x, y, z);
    FlattenAt(s, (x + 1) % 5, y, z);
    FlattenAt(s, (x + 2) % 5, y, z);
  }

  lemma ChiBit(was: seq<Lane>, s: seq<Lane>, k: nat)
    requires |was| == |s| == 25 && k < 1600
    requires s[k / 64] == ChiWord(was, k / 320 * 5, k / 64 % 5)
    ensures Flatten(s)[k] == F.Chi(Flatten(was))[k]
  {
    hide ChiWord, F.ChiBit;
    ChiWordBit(was, k / 64 % 5, k / 320, k % 64);
  }

  lemma ChiLanes(was: seq<Lane>, s: seq<Lane>)
    requires |was| == |s| == 25
    requires forall m :: 0 <= m < 25 ==> s[m] == ChiWord(was, m / 5 * 5, m % 5)
    ensures Flatten(s) == F.Chi(Flatten(was))
  {
    hide *;
    forall k | 0 <= k < 1600
      ensures Flatten(s)[k] == F.Chi(Flatten(was))[k]
    {
      assert k / 64 / 5 == k / 320;
      ChiBit(was, s, k);
    }
  }

  method ChiRow(s: array<Lane>, bc: array<Lane>, j: nat)
    requires s.Length == 25 && bc.Length == 5 && s != bc && j <= 20
    modifies s, bc
    ensures forall m :: 0 <= m < 25 ==>
      s[m] == if j <= m < j + 5 then ChiWord(old(s[..]), j, m - j) else old(s[m])
  {
    hide Xor, And, Not, ChiWord;
    ghost var was := s[..];
    for i := 0 to 5
      invariant s[..] == was
      invariant forall m :: 0 <= m < i ==> bc[m] == was[j + m]
    {
      bc[i] := s[j + i];
    }
    for i := 0 to 5
      invariant bc[..] == was[j..j + 5]
      invariant forall m :: 0 <= m < 25 ==> s[m] == if j <= m < j + i then ChiWord(was, j, m - j) else was[m]
    {
      ChiWordOfRow(was, bc[..], j, i);
      s[j + i] := Xor(s[j + i], And(Not(bc[(i + 1) % 5]), bc[(i + 2) % 5]));
    }
  }

  lemma ChiWordOfRow(s: seq<Lane>, row: seq<Lane>, j: nat, i: nat)
    requires |s| == 25 && j <= 20 && i < 5 && row == s[j..j + 5]
    ensures Xor(s[j + i], And(Not(row[(i + 1) % 5]), row[(i + 2) % 5])) == ChiWord(s, j, i)
  {
    hide Xor, And, Not;
  }

  /** Chi reads only the row it writes. */
  lemma ChiWordLocal(a: seq<Lane>, b: seq<Lane>, j: nat, i: nat)
    requires |a| == |b| == 25 && j <= 20 && i < 5
    requires a[j..j + 5] == b[j..j + 5]
    ensures ChiWord(a, j, i) == ChiWord(b, j, i)
  {
    hide Xor, And, Not;
    assert forall k :: j <= k < j + 5 ==> a[k] == a[j..j + 5][k - j] == b[k];
  }

  method Chi(s: array<Lane>, bc: array<Lane>)
    requires s.Length == 25 && bc.Length == 5 && s != bc
    modifies s, bc
    ensures Flatten(s[..]) == F.Chi(old(Flatten(s[..])))
  {
    hide ChiWord, Flatten, F.Chi;
    ghost var was := s[..];
    var j := 0;
    while j < 25
      invariant 0 <= j <= 25 && j % 5 == 0
      invariant forall m :: 0 <= m < 25 ==> s[m] == if m < j then ChiWord(was, m / 5 * 5, m % 5) else was[m]
    {
      ghost var mid := s[..];
      ChiRow(s, bc, j);
      forall i | 0 <= i < 5
        ensures ChiWord(mid, j, i) == ChiWord(was, j, i)
      {
        ChiWordLocal(mid, was, j, i);
      }
      j := j + 5;
    }
    ChiLanes(was, s[..]);
  }

  // ---- the permutation

  lemma IotaLanes(was: seq<Lane>, ir: nat)
    requires |was| == 25 && ir < 24
    ensures Flatten(was[0 := Xor(was[0], F.RC(ir))]) == F.Iota(Flatten(was), ir)
  {
    hide F.RC;
  }

  /** The in-place permutation computes the 24 rounds of FIPS 202. */
  method Permute(s: array<Lane>)
    requires s.Length == 25
    modifies s
    ensures Flatten(s[..]) == F.KeccakP(old(Flatten(s[..])))
  {
    hide Flatten, F.Iota, F.Chi, F.Pi, F.Rho, F.Theta, F.RC, LaneOf;
    ghost var S := Flatten(s[..]);
    var bc := new Lane[5](i => Zeros(64));
    for round := 0 to 24
      invariant Flatten(s[..]) == F.Rounds(S, round)
    {
      Theta(s, bc);
      RhoPi(s, bc);
      Chi(s, bc);
      ghost var was := s[..];
      C.RoundConstant(round);
      s[0] := Xor(s[0], LaneOf(C.RNDC[round]));
      assert s[..] == was[0 := Xor(was[0], F.RC(round))];
      IotaLanes(was, round);
    }
  }
}
