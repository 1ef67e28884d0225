/**
 The Keccak permutation is a permutation: every step of a round is undone by an explicit
 inverse, and so are the 24 rounds. Theta is inverted through the column parities, where
 it acts as a linear map whose powers of two have the same shape as the map itself.
 */
module KeccakInverse {
  import opened Bits
  import opened Fips202

  lemma SameState(S: State, T: State)
    requires forall x: nat, y: nat, z: nat | x < 5 && y < 5 && z < 64 :: At(S, x, y, z) == At(T, x, y, z)
    ensures S == T
  {
    forall k | 0 <= k < 1600
      ensures S[k] == T[k]
    {
      assert k == 64 * (5 * (k / 320) + k / 64 % 5) + k % 64;
      assert At(S, k / 64 % 5, k / 320, k % 64) == At(T, k / 64 % 5, k / 320, k % 64);
    }
  }

  lemma ThetaAt(S: State, x: nat, y: nat, z: nat)
    requires x < 5 && y < 5 && z < 64
    ensures At(Theta(S), x, y, z) == (At(S, x, y, z) != D(S, x, z))
  {
    hide D;
    Coordinates(x, y, z);
  }

  lemma PiAt(S: State, x: nat, y: nat, z: nat)
    requires x < 5 && y < 5 && z < 64
    ensures At(Pi(S), x, y, z) == PiBit(S, x, y, z)
  {
    hide PiBit;
    Coordinates(x, y, z);
  }

  lemma ChiAt(S: State, x: nat, y: nat, z: nat)
    requires x < 5 && y < 5 && z < 64
    ensures At(Chi(S), x, y, z) == ChiBit(S, x, y, z)
  {
    hide ChiBit;
    Coordinates(x, y, z);
  }

  // ---- rho

  function RhoBackBit(S: State, x: nat, y: nat, z: nat): bool
    requires x < 5 && y < 5 && z < 64
  {
    At(S, x, y, (z + Offset(x, y)) % 64)
  }

  function RhoBack(S: State): State {
    seq(1600, k requires 0 <= k < 1600 => RhoBackBit(S, k / 64 % 5, k / 320, k % 64))
  }

  lemma RhoBackAt(S: State, x: nat, y: nat, z: nat)
    requires x < 5 && y < 5 && z < 64
    ensures At(RhoBack(S), x, y, z) == RhoBackBit(S, x, y, z)
  {
    hide RhoBackBit;
    Coordinates(x, y, z);
  }

  lemma ThereAndBack(z: nat, n: nat)
    requires z < 64 && n < 64
    ensures ((z + n) % 64 + 64 - n) % 64 == z && ((z + 64 - n) % 64 + n) % 64 == z
  {
    if z + n >= 64 {
      assert (z + n) % 64 == z + n - 64;
    }
    if z >= n {
      assert (z + 64 - n) % 64 == z - n;
    }
  }

  lemma RhoUndoneAt(S: State, x: nat, y: nat, z: nat)
    requires x < 5 && y < 5 && z < 64
    ensures At(RhoBack(Rho(S)), x, y, z) == At(S, x, y, z)
    ensures At(Rho(RhoBack(S)), x, y, z) == At(S, x, y, z)
  {
    hide At, Rho, RhoBack, Offset;
    ThereAndBack(z, Offset(x, y));
    RhoBackAt(Rho(S), x, y, z);
    RhoAt(S, x, y, (z + Offset(x, y)) % 64);
    RhoAt(RhoBack(S), x, y, z);
    RhoBackAt(S, x, y, (z + 64 - Offset(x, y)) % 64);
  }

  lemma RhoUndone(S: State)
    ensures RhoBack(Rho(S)) == S && Rho(RhoBack(S)) == S
  {
    hide At, Rho, RhoBack, Offset;
    forall x: nat, y: nat, z: nat | x < 5 && y < 5 && z < 64
      ensures At(RhoBack(Rho(S)), x, y, z) == At(S, x, y, z)
      ensures At(Rho(RhoBack(S)), x, y, z) == At(S, x, y, z)
    {
      RhoUndoneAt(S, x, y, z);
    }
    SameState(RhoBack(Rho(S)), S);
    SameState(Rho(RhoBack(S)), S);
  }

  // ---- pi

  function PiBackBit(S: State, x: nat, y: nat, z: nat): bool
    requires x < 5 && y < 5 && z < 64
  {
    At(S, y, (2 * x + 3 * y) % 5, z)
  }

  function PiBack(S: State): State {
    seq(1600, k requires 0 <= k < 1600 => PiBackBit(S, k / 64 % 5, k / 320, k % 64))
  }

  lemma PiBackAt(S: State, x: nat, y: nat, z: nat)
    requires x < 5 && y < 5 && z < 64
    ensures At(PiBack(S), x, y, z) == PiBackBit(S, x, y, z)
  {
    hide PiBackBit;
    Coordinates(x, y, z);
  }

  lemma PiUndone(S: State)
    ensures PiBack(Pi(S)) == S && Pi(PiBack(S)) == S
  {
    hide At, Pi, PiBack;
    forall x: nat, y: nat, z: nat | x < 5 && y < 5 && z < 64
      ensures At(PiBack(Pi(S)), x, y, z) == At(S, x, y, z)
      ensures At(Pi(PiBack(S)), x, y, z) == At(S, x, y, z)
    {
      Unmix(x, y);
      PiBackAt(Pi(S), x, y, z);
      PiAt(S, y, (2 * x + 3 * y) % 5, z);
      PiAt(PiBack(S), x, y, z);
      PiBackAt(S, (x + 3 * y) % 5, x, z);
    }
    SameState(PiBack(Pi(S)), S);
    SameState(Pi(PiBack(S)), S);
  }

  // ---- chi

  function ChiBackBit(S: State, x: nat, y: nat, z: nat): bool
    requires x < 5 && y < 5 && z < 64
  {
    At(S, x, y, z) !=
    (!At(S, (x + 1) % 5, y, z) &&
     (At(S, (x + 2) % 5, y, z) != (!At(S, (x + 3) % 5, y, z) && At(S, (x + 4) % 5, y, z))))
  }

  function ChiBack(S: State): State {
    seq(1600, k requires 0 <= k < 1600 => ChiBackBit(S, k / 64 % 5, k / 320, k % 64))
  }

  lemma ChiBackAt(S: State, x: nat, y: nat, z: nat)
    requires x < 5 && y < 5 && z < 64
    ensures At(ChiBack(S), x, y, z) == ChiBackBit(S, x, y, z)
  {
    hide ChiBackBit;
    Coordinates(x, y, z);
  }

  lemma ChiUndoneAt(S: State, x: nat, y: nat, z: nat)
    requires x < 5 && y < 5 && z < 64
    ensures At(ChiBack(Chi(S)), x, y, z) == At(S, x, y, z)
    ensures At(Chi(ChiBack(S)), x, y, z) == At(S, x, y, z)
  {
    hide At, Chi, ChiBack;
    ChiBackAt(Chi(S), x, y, z);
    ChiAt(ChiBack(S), x, y, z);
    forall i: nat | i < 5
      ensures At(Chi(S), i, y, z) == ChiBit(S, i, y, z) && At(ChiBack(S), i, y, z) == ChiBackBit(S, i, y, z)
    {
      ChiAt(S, i, y, z);
      ChiBackAt(S, i, y, z);
    }
    match x {
      case 0 => case 1 => case 2 => case 3 => case _ =>
    }
  }

  lemma ChiUndone(S: State)
    ensures ChiBack(Chi(S)) == S && Chi(ChiBack(S)) == S
  {
    hide *;
    forall x: nat, y: nat, z: nat | x < 5 && y < 5 && z < 64
      ensures At(ChiBack(Chi(S)), x, y, z) == At(S, x, y, z)
      ensures At(Chi(ChiBack(S)), x, y, z) == At(S, x, y, z)
    {
      ChiUndoneAt(S, x, y, z);
    }
    SameState(ChiBack(Chi(S)), S);
    SameState(Chi(ChiBack(S)), S);
  }

  // ---- iota

  lemma IotaUndone(S: State, ir: nat)
    requires ir < 24
    ensures Iota(Iota(S, ir), ir) == S
  {
    hide RC;
  }

  // ---- theta on the column parities

  /** One bit for every column (x, z), at 64x + z. */
  type Plane = p: seq<bool> | |p| == 320 witness seq(320, k => false)

  function Pt(p: Plane, x: nat, z: nat): bool
    requires x < 5 && z < 64
  {
    p[64 * x + z]
  }

  function Left(x: nat, a: nat): (r: nat)
    requires x < 5 && a < 5
    ensures r < 5
  {
    if x >= a then x - a else x + 5 - a
  }

  function Right(x: nat, a: nat): (r: nat)
    requires x < 5 && a < 5
    ensures r < 5
  {
    if x + a < 5 then x + a else x + a - 5
  }

  function Deep(z: nat, d: nat): (r: nat)
    requires z < 64 && d < 64
    ensures r < 64
  {
    if z >= d then z - d else z + 64 - d
  }

  function DoubleDepth(d: nat): (r: nat)
    requires d < 64
    ensures r < 64
  {
    if 2 * d < 64 then 2 * d else 2 * d - 64
  }

  /** Adds to every column the columns `a` to the left and, `r` deeper, `a` to the right. */
  function SpreadBit(p: Plane, a: nat, r: nat, x: nat, z: nat): bool
    requires a < 5 && r < 64 && x < 5 && z < 64
  {
    (Pt(p, x, z) != Pt(p, Left(x, a), z)) != Pt(p, Right(x, a), Deep(z, r))
  }

  function Spread(p: Plane, a: nat, r: nat): Plane
    requires a < 5 && r < 64
  {
    seq(320, k requires 0 <= k < 320 => SpreadBit(p, a, r, k / 64, k % 64))
  }

  lemma SpreadAt(p: Plane, a: nat, r: nat, x: nat, z: nat)
    requires a < 5 && r < 64 && x < 5 && z < 64
    ensures Pt(Spread(p, a, r), x, z) == SpreadBit(p, a, r, x, z)
  {
    hide SpreadBit;
    assert (64 * x + z) / 64 == x;
  }

  lemma SamePlane(p: Plane, q: Plane)
    requires forall x: nat, z: nat | x < 5 && z < 64 :: Pt(p, x, z) == Pt(q, x, z)
    ensures p == q
  {
    forall k | 0 <= k < 320
      ensures p[k] == q[k]
    {
      assert Pt(p, k / 64, k % 64) == Pt(q, k / 64, k % 64);
    }
  }

  /** Spreading twice is spreading once, twice as far: the cross terms cancel. */
  lemma SpreadTwice(p: Plane, a: nat, r: nat)
    requires a < 5 && r < 64
    ensures Spread(Spread(p, a, r), a, r) == Spread(p, Right(a, a), DoubleDepth(r))
  {
    hide *;
    forall x: nat, z: nat | x < 5 && z < 64
      ensures Pt(Spread(Spread(p, a, r), a, r), x, z) == Pt(Spread(p, Right(a, a), DoubleDepth(r)), x, z)
    {
      SpreadTwiceAt(p, a, r, x, z);
    }
    SamePlane(Spread(Spread(p, a, r), a, r), Spread(p, Right(a, a), DoubleDepth(r)));
  }

  lemma SpreadTwiceAt(p: Plane, a: nat, r: nat, x: nat, z: nat)
    requires a < 5 && r < 64 && x < 5 && z < 64
    ensures Pt(Spread(Spread(p, a, r), a, r), x, z) == Pt(Spread(p, Right(a, a), DoubleDepth(r)), x, z)
  {
    hide Spread, Pt, Left, Right, Deep, DoubleDepth;
    SpreadAt(Spread(p, a, r), a, r, x, z);
    SpreadAt(p, a, r, x, z);
    SpreadAt(p, a, r, Left(x, a), z);
    SpreadAt(p, a, r, Right(x, a), Deep(z, r));
    SpreadAt(p, Right(a, a), DoubleDepth(r), x, z);
    Opposite(x, a);
    Doubled(x, a);
    DoubledDepth(z, r);
  }

  lemma Opposite(x: nat, a: nat)
    requires x < 5 && a < 5
    ensures Right(Left(x, a), a) == x && Left(Right(x, a), a) == x
  {
  }

  lemma Doubled(x: nat, a: nat)
    requires x < 5 && a < 5
    ensures Left(Left(x, a), a) == Left(x, Right(a, a)) && Right(Right(x, a), a) == Right(x, Right(a, a))
  {
  }

  lemma DoubledDepth(z: nat, r: nat)
    requires z < 64 && r < 64
    ensures Deep(Deep(z, r), r) == Deep(z, DoubleDepth(r))
  {
  }

  lemma SpreadsCommute(p: Plane, a: nat, r: nat, b: nat, t: nat)
    requires a < 5 && r < 64 && b < 5 && t < 64
    ensures Spread(Spread(p, a, r), b, t) == Spread(Spread(p, b, t), a, r)
  {
    hide *;
    forall x: nat, z: nat | x < 5 && z < 64
      ensures Pt(Spread(Spread(p, a, r), b, t), x, z) == Pt(Spread(Spread(p, b, t), a, r), x, z)
    {
      SpreadsCommuteAt(p, a, r, b, t, x, z);
    }
    SamePlane(Spread(Spread(p, a, r), b, t), Spread(Spread(p, b, t), a, r));
  }

  lemma SpreadsCommuteAt(p: Plane, a: nat, r: nat, b: nat, t: nat, x: nat, z: nat)
    requires a < 5 && r < 64 && b < 5 && t < 64 && x < 5 && z < 64
    ensures Pt(Spread(Spread(p, a, r), b, t), x, z) == Pt(Spread(Spread(p, b, t), a, r), x, z)
  {
    hide Spread, Pt, Left, Right, Deep;
    SpreadAt(Spread(p, a, r), b, t, x, z);
    SpreadAt(p, a, r, x, z);
    SpreadAt(p, a, r, Left(x, b), z);
    SpreadAt(p, a, r, Right(x, b), Deep(z, t));
    SpreadAt(Spread(p, b, t), a, r, x, z);
    SpreadAt(p, b, t, x, z);
    SpreadAt(p, b, t, Left(x, a), z);
    SpreadAt(p, b, t, Right(x, a), Deep(z, r));
    ShiftsCommute(x, a, b);
    DepthsCommute(z, r, t);
  }

  lemma ShiftsCommute(x: nat, a: nat, b: nat)
    requires x < 5 && a < 5 && b < 5
    ensures Left(Left(x, a), b) == Left(Left(x, b), a) && Right(Right(x, a), b) == Right(Right(x, b), a)
    ensures Left(Right(x, a), b) == Right(Left(x, b), a) && Left(Right(x, b), a) == Right(Left(x, a), b)
  {
  }

  lemma DepthsCommute(z: nat, r: nat, t: nat)
    requires z < 64 && r < 64 && t < 64
    ensures Deep(Deep(z, r), t) == Deep(Deep(z, t), r)
  {
  }

  /** The 63rd power of the map theta induces on parities, as its powers 1, 2, 4, ..., 32. */
  function Power63(p: Plane): Plane {
    Spread(Spread(Spread(Spread(Spread(Spread(p, 1, 1), 2, 2), 4, 4), 3, 8), 1, 16), 2, 32)
  }

  /** The 64th power is a spread without depth, whose cube is the identity. */
  lemma Power64(p: Plane)
    ensures Power63(Spread(p, 1, 1)) == Spread(p, 4, 0)
  {
    hide Spread;
    SpreadTwice(p, 1, 1);
    SpreadTwice(p, 2, 2);
    SpreadTwice(p, 4, 4);
    SpreadTwice(p, 3, 8);
    SpreadTwice(p, 1, 16);
    SpreadTwice(p, 2, 32);
  }

  lemma CubeAt(p: Plane, x: nat, z: nat)
    requires x < 5 && z < 64
    ensures Pt(Spread(Spread(p, 3, 0), 4, 0), x, z) == Pt(p, x, z)
  {
    hide Spread, Pt;
    SpreadAt(Spread(p, 3, 0), 4, 0, x, z);
    SpreadAt(p, 3, 0, x, z);
    SpreadAt(p, 3, 0, Left(x, 4), z);
    SpreadAt(p, 3, 0, Right(x, 4), z);
    match x {
      case 0 => case 1 => case 2 => case 3 => case _ =>
    }
  }

  lemma Cube(p: Plane)
    ensures Spread(Spread(Spread(p, 4, 0), 4, 0), 4, 0) == p
  {
    hide Spread;
    SpreadTwice(p, 4, 0);
    forall x: nat, z: nat | x < 5 && z < 64
      ensures Pt(Spread(Spread(p, 3, 0), 4, 0), x, z) == Pt(p, x, z)
    {
      CubeAt(p, x, z);
    }
    SamePlane(Spread(Spread(p, 3, 0), 4, 0), p);
  }

  /** The 191st power: the inverse of the map theta induces on parities. */
  function Unspread(p: Plane): Plane {
    Spread(Spread(Power63(p), 4, 0), 4, 0)
  }

  lemma SpreadUndone(p: Plane)
    ensures Unspread(Spread(p, 1, 1)) == p && Spread(Unspread(p), 1, 1) == p
  {
    hide Spread;
    Power64(p);
    Cube(p);
    var p1 := Spread(p, 1, 1);
    var p2 := Spread(p1, 2, 2);
    var p3 := Spread(p2, 4, 4);
    var p4 := Spread(p3, 3, 8);
    var p5 := Spread(p4, 1, 16);
    SpreadsCommute(p1, 2, 2, 1, 1);
    SpreadsCommute(p2, 4, 4, 1, 1);
    SpreadsCommute(p3, 3, 8, 1, 1);
    SpreadsCommute(p4, 1, 16, 1, 1);
    SpreadsCommute(p5, 2, 32, 1, 1);
    SpreadsCommute(Power63(p), 4, 0, 1, 1);
    SpreadsCommute(Spread(Power63(p), 4, 0), 4, 0, 1, 1);
  }

  // ---- theta

  function Parities(S: State): Plane {
    seq(320, k requires 0 <= k < 320 => C(S, k / 64, k % 64))
  }

  lemma ParitiesAt(S: State, x: nat, z: nat)
    requires x < 5 && z < 64
    ensures Pt(Parities(S), x, z) == C(S, x, z)
  {
    hide C;
    assert (64 * x + z) / 64 == x;
  }

  /** What theta adds to a column, from the plane of parities. */
  function Added(p: Plane, x: nat, z: nat): bool
    requires x < 5 && z < 64
  {
    Pt(p, Left(x, 1), z) != Pt(p, Right(x, 1), Deep(z, 1))
  }

  lemma AddedIsD(S: State, x: nat, z: nat)
    requires x < 5 && z < 64
    ensures D(S, x, z) == Added(Parities(S), x, z)
  {
    hide C, Parities;
    ParitiesAt(S, Left(x, 1), z);
    ParitiesAt(S, Right(x, 1), Deep(z, 1));
  }

  function ThetaBack(S: State): State {
    var p := Unspread(Parities(S));
    seq(1600, k requires 0 <= k < 1600 => S[k] != Added(p, k / 64 % 5, k % 64))
  }

  lemma ThetaBackAt(S: State, x: nat, y: nat, z: nat)
    requires x < 5 && y < 5 && z < 64
    ensures At(ThetaBack(S), x, y, z) == (At(S, x, y, z) != Added(Unspread(Parities(S)), x, z))
  {
    hide Added, Unspread, Parities;
    Coordinates(x, y, z);
  }

  /** Theta moves the plane of parities by one spread; so does its inverse, backwards. */
  lemma ParitiesOfTheta(S: State)
    ensures Parities(Theta(S)) == Spread(Parities(S), 1, 1)
  {
    hide *;
    forall x: nat, z: nat | x < 5 && z < 64
      ensures Pt(Parities(Theta(S)), x, z) == Pt(Spread(Parities(S), 1, 1), x, z)
    {
      ParitiesOfThetaAt(S, x, z);
    }
    SamePlane(Parities(Theta(S)), Spread(Parities(S), 1, 1));
  }

  lemma ParitiesOfThetaAt(S: State, x: nat, z: nat)
    requires x < 5 && z < 64
    ensures Pt(Parities(Theta(S)), x, z) == Pt(Spread(Parities(S), 1, 1), x, z)
  {
    hide Pt, Parities, Spread, Theta, At, D;
    ParitiesAt(Theta(S), x, z);
    ParitiesAt(S, x, z);
    SpreadAt(Parities(S), 1, 1, x, z);
    AddedIsD(S, x, z);
    ThetaAt(S, x, 0, z);
    ThetaAt(S, x, 1, z);
    ThetaAt(S, x, 2, z);
    ThetaAt(S, x, 3, z);
    ThetaAt(S, x, 4, z);
  }

  lemma ParitiesOfThetaBackAt(S: State, x: nat, z: nat)
    requires x < 5 && z < 64
    ensures Pt(Parities(ThetaBack(S)), x, z) == Pt(Unspread(Parities(S)), x, z)
  {
    hide Pt, Parities, Spread, Unspread, ThetaBack, At;
    var p := Unspread(Parities(S));
    SpreadUndone(Parities(S));
    ParitiesAt(ThetaBack(S), x, z);
    ParitiesAt(S, x, z);
    SpreadAt(p, 1, 1, x, z);
    ThetaBackAt(S, x, 0, z);
    ThetaBackAt(S, x, 1, z);
    ThetaBackAt(S, x, 2, z);
    ThetaBackAt(S, x, 3, z);
    ThetaBackAt(S, x, 4, z);
  }

  lemma ParitiesOfThetaBack(S: State)
    ensures Parities(ThetaBack(S)) == Unspread(Parities(S))
  {
    hide *;
    forall x: nat, z: nat | x < 5 && z < 64
      ensures Pt(Parities(ThetaBack(S)), x, z) == Pt(Unspread(Parities(S)), x, z)
    {
      ParitiesOfThetaBackAt(S, x, z);
    }
    SamePlane(Parities(ThetaBack(S)), Unspread(Parities(S)));
  }

  lemma ThetaUndone(S: State)
    ensures ThetaBack(Theta(S)) == S && Theta(ThetaBack(S)) == S
  {
    hide At, Theta, ThetaBack, Parities, Unspread, Spread, D, Added;
    ParitiesOfTheta(S);
    ParitiesOfThetaBack(S);
    SpreadUndone(Parities(S));
    forall x: nat, y: nat, z: nat | x < 5 && y < 5 && z < 64
      ensures At(ThetaBack(Theta(S)), x, y, z) == At(S, x, y, z)
      ensures At(Theta(ThetaBack(S)), x, y, z) == At(S, x, y, z)
    {
      ThetaAt(S, x, y, z);
      ThetaBackAt(Theta(S), x, y, z);
      AddedIsD(S, x, z);
      ThetaAt(ThetaBack(S), x, y, z);
      ThetaBackAt(S, x, y, z);
      AddedIsD(ThetaBack(S), x, z);
    }
    SameState(ThetaBack(Theta(S)), S);
    SameState(Theta(ThetaBack(S)), S);
  }

  // ---- rounds

  function RoundBack(S: State, ir: nat): State
    requires ir < 24
  {
    ThetaBack(RhoBack(PiBack(ChiBack(Iota(S, ir)))))
  }

  lemma RoundUndone(S: State, ir: nat)
    requires ir < 24
    ensures RoundBack(Round(S, ir), ir) == S && Round(RoundBack(S, ir), ir) == S
  {
    hide Theta, ThetaBack, Rho, RhoBack, Pi, PiBack, Chi, ChiBack, Iota;
    var T := Theta(S);
    ThetaUndone(S);
    RhoUndone(T);
    PiUndone(Rho(T));
    ChiUndone(Pi(Rho(T)));
    IotaUndone(Chi(Pi(Rho(T))), ir);
    var U := Iota(S, ir);
    IotaUndone(S, ir);
    ChiUndone(U);
    PiUndone(ChiBack(U));
    RhoUndone(PiBack(ChiBack(U)));
    ThetaUndone(RhoBack(PiBack(ChiBack(U))));
  }

  function RoundsBack(S: State, n: nat): State
    requires n <= 24
    decreases n
  {
    if n == 0 then S else RoundsBack(RoundBack(S, n - 1), n - 1)
  }

  lemma {:induction false} RoundsUndone(S: State, n: nat)
    requires n <= 24
    ensures RoundsBack(Rounds(S, n), n) == S && Rounds(RoundsBack(S, n), n) == S
    decreases n
  {
    hide Round, RoundBack;
    if n > 0 {
      RoundUndone(Rounds(S, n - 1), n - 1);
      RoundsUndone(S, n - 1);
      RoundUndone(S, n - 1);
      RoundsUndone(RoundBack(S, n - 1), n - 1);
    }
  }

  /** KECCAK-p[1600, 24] is a bijection on state strings: it has a two-sided inverse. */
  lemma KeccakPInvertible(S: State)
    ensures RoundsBack(KeccakP(S), 24) == S && KeccakP(RoundsBack(S, 24)) == S
  {
    RoundsUndone(S, 24);
  }
}
