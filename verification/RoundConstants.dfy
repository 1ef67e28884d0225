/**
 The round constants of src/signing/sha3.c are the words the shift register of section 3.2.5
 of FIPS 202 defines.
 */
module RoundConstants {
  import opened Bits
  import F = Fips202

  const RNDC: seq<nat> := [
    0x0000000000000001, 0x0000000000008082, 0x800000000000808a, 0x8000000080008000,
    0x000000000000808b, 0x0000000080000001, 0x8000000080008081, 0x8000000000008009,
    0x000000000000008a, 0x0000000000000088, 0x0000000080008009, 0x000000008000000a,
    0x000000008000808b, 0x800000000000008b, 0x8000000000008089, 0x8000000000008003,
    0x8000000000008002, 0x8000000000000080, 0x000000000000800a, 0x800000008000000a,
    0x8000000080008081, 0x8000000000008080, 0x0000000080000001, 0x8000000080008008
  ]

  // ---- the register

  /** The register before round `ir`. */
  function Before(ir: nat): F.Register
    requires ir < 24
  {
    match ir
    case 0 => F.Register(true, false, false, false, false, false, false, false)
    case 1 => F.Register(false, false, false, false, false, false, false, true)
    case 2 => F.Register(false, false, false, true, true, false, true, true)
    case 3 => F.Register(false, true, false, true, true, false, false, false)
    case 4 => F.Register(true, true, true, true, true, false, true, true)
    case 5 => F.Register(true, false, false, true, false, false, false, false)
    case 6 => F.Register(true, false, true, false, true, true, false, false)
    case 7 => F.Register(true, true, true, true, false, false, true, false)
    case 8 => F.Register(false, true, false, true, false, false, true, true)
    case 9 => F.Register(false, false, false, false, true, true, true, false)
    case 10 => F.Register(true, false, false, false, false, false, true, false)
    case 11 => F.Register(false, false, true, true, false, true, true, true)
    case 12 => F.Register(true, false, true, false, true, false, true, true)
    case 13 => F.Register(true, false, true, true, false, false, true, true)
    case 14 => F.Register(true, true, false, false, false, true, true, false)
    case 15 => F.Register(true, true, false, true, false, true, false, true)
    case 16 => F.Register(false, true, false, true, false, true, false, true)
    case 17 => F.Register(false, true, false, true, false, true, false, false)
    case 18 => F.Register(false, true, false, false, true, true, true, true)
    case 19 => F.Register(false, false, false, true, false, true, true, true)
    case 20 => F.Register(true, true, true, false, true, true, false, false)
    case 21 => F.Register(false, true, true, true, true, true, false, false)
    case 22 => F.Register(true, true, false, true, false, false, false, false)
    case _ => F.Register(false, false, true, false, false, false, true, false)
  }

  /** The seven bits a round takes. */
  datatype Drawn = Drawn(b0: bool, b1: bool, b2: bool, b3: bool, b4: bool, b5: bool, b6: bool)

  function DrawnFrom(R: F.Register): Drawn {
    var R1 := F.LfsrStep(R);
    var R2 := F.LfsrStep(R1);
    var R3 := F.LfsrStep(R2);
    var R4 := F.LfsrStep(R3);
    var R5 := F.LfsrStep(R4);
    Drawn(R.r0, R1.r0, R2.r0, R3.r0, R4.r0, R5.r0, F.LfsrStep(R5).r0)
  }

  function Seven(R: F.Register): F.Register {
    F.LfsrStep(F.LfsrStep(F.LfsrStep(F.LfsrStep(F.LfsrStep(F.LfsrStep(F.LfsrStep(R)))))))
  }

  function RoundBits(ir: nat): Drawn {
    Drawn(F.Rc(7 * ir), F.Rc(1 + 7 * ir), F.Rc(2 + 7 * ir), F.Rc(3 + 7 * ir), F.Rc(4 + 7 * ir), F.Rc(5 + 7 * ir),
          F.Rc(6 + 7 * ir))
  }

  lemma SevenSteps(t: nat)
    ensures F.Lfsr(t + 7) == Seven(F.Lfsr(t))
    ensures t + 7 < 255 ==> Drawn(F.Rc(t), F.Rc(1 + t), F.Rc(2 + t), F.Rc(3 + t), F.Rc(4 + t), F.Rc(5 + t), F.Rc(6 + t))
                            == DrawnFrom(F.Lfsr(t))
  {
    hide F.LfsrStep, F.Lfsr;
    NextStep(t);
    NextStep(t + 1);
    NextStep(t + 2);
    NextStep(t + 3);
    NextStep(t + 4);
    NextStep(t + 5);
    NextStep(t + 6);
  }

  lemma NextStep(t: nat)
    ensures F.Lfsr(t + 1) == F.LfsrStep(F.Lfsr(t))
  {
  }

  lemma NextRegister(i: nat)
    requires i < 23
    ensures Seven(Before(i)) == Before(i + 1)
  {
    match i {
      case 0 => case 1 => case 2 => case 3 => case 4 => case 5 => case 6 => case 7 => case 8 => case 9 =>
      case 10 => case 11 =>
      case 12 => case 13 => case 14 => case 15 => case 16 => case 17 => case 18 => case 19 => case 20 =>
      case 21 => case _ =>
    }
  }

  lemma {:induction false} RegisterAt(ir: nat)
    requires ir < 24
    ensures F.Lfsr(7 * ir) == Before(ir)
  {
    hide F.LfsrStep, F.Lfsr, Seven, Before, DrawnFrom;
    if ir > 0 {
      RegisterAt(ir - 1);
      SevenSteps(7 * (ir - 1));
      NextRegister(ir - 1);
    } else {
      Start();
    }
  }

  lemma Start()
    ensures F.Lfsr(0) == Before(0)
  {
  }

  // ---- bits at 0, 1, 3, 7, 15, 31 and 63

  /** A bit, `g` zero bits and the rest. */
  function Gap(bit: bool, g: nat, rest: seq<bool>): seq<bool> {
    [bit] + Zeros(g) + rest
  }

  lemma {:induction false} ZerosFirst(g: nat, rest: seq<bool>)
    ensures ValueOf(Zeros(g) + rest) == Pow2(g) * ValueOf(rest)
  {
    if g == 0 {
      assert Zeros(0) + rest == rest;
    } else {
      assert (Zeros(g) + rest)[1..] == Zeros(g - 1) + rest;
      ZerosFirst(g - 1, rest);
    }
  }

  lemma GapValue(bit: bool, g: nat, rest: seq<bool>, w: nat)
    requires Pow2(g) == w
    ensures ValueOf(Gap(bit, g, rest)) == (if bit then 1 else 0) + 2 * (w * ValueOf(rest))
  {
    assert Gap(bit, g, rest)[1..] == Zeros(g) + rest;
    ZerosFirst(g, rest);
  }

  function Spaced(b: Drawn): (r: seq<bool>)
    ensures |r| == 64
  {
    Gap(b.b0, 0, Gap(b.b1, 1, Gap(b.b2, 3, Gap(b.b3, 7, Gap(b.b4, 15, Gap(b.b5, 31, [b.b6]))))))
  }

  function Weigh(b: Drawn): nat {
    (if b.b0 then 0x1 else 0) + (if b.b1 then 0x2 else 0) + (if b.b2 then 0x8 else 0) + (if b.b3 then 0x80 else 0)
    + (if b.b4 then 0x8000 else 0) + (if b.b5 then 0x8000_0000 else 0) + (if b.b6 then 0x8000_0000_0000_0000 else 0)
  }

  lemma SpacedValue(b: Drawn)
    ensures ValueOf(Spaced(b)) == Weigh(b)
  {
    hide Pow2, Gap, ValueOf;
    SmallPows();
    OneBit(b.b6);
    var s6 := [b.b6];
    GapValue(b.b5, 31, s6, 0x8000_0000);
    var s5 := Gap(b.b5, 31, s6);
    GapValue(b.b4, 15, s5, 0x8000);
    var s4 := Gap(b.b4, 15, s5);
    GapValue(b.b3, 7, s4, 0x80);
    var s3 := Gap(b.b3, 7, s4);
    GapValue(b.b2, 3, s3, 8);
    var s2 := Gap(b.b2, 3, s3);
    GapValue(b.b1, 1, s2, 2);
    var s1 := Gap(b.b1, 1, s2);
    GapValue(b.b0, 0, s1, 1);
  }

  lemma OneBit(bit: bool)
    ensures ValueOf([bit]) == if bit then 1 else 0
  {
    assert [bit][1..] == [];
  }

  lemma SmallPows()
    ensures Pow2(0) == 1 && Pow2(1) == 2 && Pow2(3) == 8 && Pow2(7) == 0x80
    ensures Pow2(15) == 0x8000 && Pow2(31) == 0x8000_0000
  {
    WordPows();
    assert Pow2(16) == 2 * Pow2(15) && Pow2(32) == 2 * Pow2(31);
  }

  lemma GapAt(bit: bool, g: nat, rest: seq<bool>)
    ensures var r := Gap(bit, g, rest);
      && |r| == g + 1 + |rest|
      && (forall z :: 0 <= z < |r| ==> r[z] == ((z == 0 && bit) || (z >= g + 1 && rest[z - (g + 1)])))
  {
  }

  lemma SpacedBits(ir: nat)
    ensures Spaced(RoundBits(ir)) == F.RC(ir)
  {
    hide F.Rc, F.RC, RoundBits, Gap;
    var b := RoundBits(ir);
    GapAt(b.b5, 31, [b.b6]);
    var s5 := Gap(b.b5, 31, [b.b6]);
    GapAt(b.b4, 15, s5);
    var s4 := Gap(b.b4, 15, s5);
    GapAt(b.b3, 7, s4);
    var s3 := Gap(b.b3, 7, s4);
    GapAt(b.b2, 3, s3);
    var s2 := Gap(b.b2, 3, s3);
    GapAt(b.b1, 1, s2);
    var s1 := Gap(b.b1, 1, s2);
    BitsMatch(ir, s1, s2, s3, s4, s5);
  }

  lemma BitsMatch(ir: nat, s1: seq<bool>, s2: seq<bool>, s3: seq<bool>, s4: seq<bool>, s5: seq<bool>)
    requires |s5| == 33 && |s4| == 49 && |s3| == 57 && |s2| == 61 && |s1| == 63
    requires var b := RoundBits(ir);
      && (forall z :: 0 <= z < 33 ==> s5[z] == ((z == 0 && b.b5) || (z == 32 && b.b6)))
      && (forall z :: 0 <= z < 49 ==> s4[z] == ((z == 0 && b.b4) || (z >= 16 && s5[z - 16])))
      && (forall z :: 0 <= z < 57 ==> s3[z] == ((z == 0 && b.b3) || (z >= 8 && s4[z - 8])))
      && (forall z :: 0 <= z < 61 ==> s2[z] == ((z == 0 && b.b2) || (z >= 4 && s3[z - 4])))
      && (forall z :: 0 <= z < 63 ==> s1[z] == ((z == 0 && b.b1) || (z >= 2 && s2[z - 2])))
    ensures Gap(RoundBits(ir).b0, 0, s1) == F.RC(ir)
  {
    hide F.Rc;
    var s0 := Gap(RoundBits(ir).b0, 0, s1);
    assert forall z :: 1 <= z < 64 ==> s0[z] == s1[z - 1];
    forall z | 0 <= z < 64
      ensures s0[z] == F.RC(ir)[z]
    {
    }
  }

  // ---- the table

  /** The bits of every round, computed. */
  function BitsOfRound(ir: nat): Drawn
    requires ir < 24
  {
    match ir
    case 0 => Drawn(true, false, false, false, false, false, false)
    case 1 => Drawn(false, true, false, true, true, false, false)
    case 2 => Drawn(false, true, true, true, true, false, true)
    case 3 => Drawn(false, false, false, false, true, true, true)
    case 4 => Drawn(true, true, true, true, true, false, false)
    case 5 => Drawn(true, false, false, false, false, true, false)
    case 6 => Drawn(true, false, false, true, true, true, true)
    case 7 => Drawn(true, false, true, false, true, false, true)
    case 8 => Drawn(false, true, true, true, false, false, false)
    case 9 => Drawn(false, false, true, true, false, false, false)
    case 10 => Drawn(true, false, true, false, true, true, false)
    case 11 => Drawn(false, true, true, false, false, true, false)
    case 12 => Drawn(true, true, true, true, true, true, false)
    case 13 => Drawn(true, true, true, true, false, false, true)
    case 14 => Drawn(true, false, true, true, true, false, true)
    case 15 => Drawn(true, true, false, false, true, false, true)
    case 16 => Drawn(false, true, false, false, true, false, true)
    case 17 => Drawn(false, false, false, true, false, false, true)
    case 18 => Drawn(false, true, true, false, true, false, false)
    case 19 => Drawn(false, true, true, false, false, true, true)
    case 20 => Drawn(true, false, false, true, true, true, true)
    case 21 => Drawn(false, false, false, true, true, false, true)
    case 22 => Drawn(true, false, false, false, false, true, false)
    case _ => Drawn(false, false, true, false, true, true, true)
  }

  lemma BitsDrawn(ir: nat)
    requires ir < 24
    ensures DrawnFrom(Before(ir)) == BitsOfRound(ir)
  {
    match ir {
      case 0 => case 1 => case 2 => case 3 => case 4 => case 5 => case 6 => case 7 => case 8 => case 9 =>
      case 10 => case 11 =>
      case 12 => case 13 => case 14 => case 15 => case 16 => case 17 => case 18 => case 19 => case 20 =>
      case 21 => case 22 => case _ =>
    }
  }

  lemma BitsWeigh(ir: nat)
    requires ir < 24
    ensures Weigh(BitsOfRound(ir)) == RNDC[ir]
  {
    match ir {
      case 0 => case 1 => case 2 => case 3 => case 4 => case 5 => case 6 => case 7 => case 8 => case 9 =>
      case 10 => case 11 =>
      case 12 => case 13 => case 14 => case 15 => case 16 => case 17 => case 18 => case 19 => case 20 =>
      case 21 => case 22 => case _ =>
    }
  }

  /** Every constant of the table is the word of the standard. */
  lemma RoundConstant(ir: nat)
    requires ir < 24
    ensures LaneOf(RNDC[ir]) == F.RC(ir)
  {
    hide F.RC, F.Rc, Spaced, Weigh, DrawnFrom, Before, BitsOfRound;
    RegisterAt(ir);
    SevenSteps(7 * ir);
    BitsDrawn(ir);
    BitsWeigh(ir);
    SpacedBits(ir);
    SpacedValue(RoundBits(ir));
    BitsOfValue(Spaced(RoundBits(ir)));
  }
}
