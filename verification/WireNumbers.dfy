/**
 `floatToWire` of src/messages/ExchangeRequestBuilder.cpp: print with eight decimals, refuse a
 number that this changes, then strip trailing zeros and a trailing dot. The text is a function
 of the number of 1e-8 units printed.
 */
module WireNumbers {
  import opened Wrappers

  function DigitChar(d: nat): (c: char)
    requires d < 10
    ensures '0' <= c <= '9' && c as int == '0' as int + d
  {
    '0' + d as char
  }

  function DigitOf(c: char): (d: nat)
    ensures d < 10
  {
    if '0' <= c <= '9' then c as int - '0' as int else 0
  }

  predicate AllDigits(s: string) {
    forall i :: 0 <= i < |s| ==> '0' <= s[i] <= '9'
  }

  function DecimalValue(s: string): nat {
    if s == "" then 0 else DecimalValue(s[..|s| - 1]) * 10 + DigitOf(s[|s| - 1])
  }

  /** A number in decimal, without leading zeros. */
  function Decimal(n: nat): (s: string)
    ensures s != "" && AllDigits(s)
  {
    if n < 10 then [DigitChar(n)] else Decimal(n / 10) + [DigitChar(n % 10)]
  }

  /** The last `k` decimal digits of `n`, zeros in front included. */
  function Fixed(n: nat, k: nat): (s: string)
    ensures |s| == k && AllDigits(s)
  {
    if k == 0 then "" else Fixed(n / 10, k - 1) + [DigitChar(n % 10)]
  }

  function Pow10(k: nat): (r: nat)
    ensures r > 0
  {
    if k == 0 then 1 else 10 * Pow10(k - 1)
  }

  const ONE: nat := 100000000

  // ---- printing

  /** What `%.8f` prints. */
  function Printed(n: int): string {
    var m := if n < 0 then -n else n;
    (if n < 0 then "-" else "") + Decimal(m / ONE) + "." + Fixed(m % ONE, 8)
  }

  function StripZeros(t: string): (r: string)
    ensures |r| <= |t| && r == t[..|r|]
    ensures r == "" || r[|r| - 1] != '0'
    ensures forall i :: |r| <= i < |t| ==> t[i] == '0'
  {
    if t != "" && t[|t| - 1] == '0' then StripZeros(t[..|t| - 1]) else t
  }

  function Wire(n: int): string {
    var m := if n < 0 then -n else n;
    var f := StripZeros(Fixed(m % ONE, 8));
    (if n < 0 then "-" else "") + Decimal(m / ONE) + (if f == "" then "" else "." + f)
  }

  /** Printing a count of 1e-8 units, then dropping trailing zeros and a trailing dot. */
  method PrintShort(n: int) returns (s: string)
    ensures s == Wire(n)
  {
    hide StripZeros, Decimal, Fixed;
    s := Printed(n);
    ghost var m := if n < 0 then -n else n;
    ghost var front := (if n < 0 then "-" else "") + Decimal(m / ONE);
    ghost var frac := Fixed(m % ONE, 8);
    ghost var kept := StripZeros(frac);
    assert s == front + "." + frac;
    var dot := 0;
    while s[dot] != '.'
      invariant dot <= |front|
      decreases |front| - dot
    {
      dot := dot + 1;
    }
    assert dot == |front|;
    var last := |s| - 1;
    while s[last] == '0'
      invariant |front| + |kept| <= last < |s|
      decreases last
    {
      last := last - 1;
    }
    assert kept != "" ==> s[|front| + |kept|] == kept[|kept| - 1];
    assert last == |front| + |kept|;
    if last == dot {
      s := s[..dot];
      assert s == front;
    } else {
      s := s[..last + 1];
      assert s == front + "." + kept;
    }
  }

  // ---- parsing

  /** Where the dot is, or the length. */
  function DotAt(s: string): (d: nat)
    ensures d <= |s| && (d < |s| ==> s[d] == '.') && (forall i :: 0 <= i < d ==> s[i] != '.')
  {
    if s == "" || s[0] == '.' then 0 else 1 + DotAt(s[1..])
  }

  /** The number of 1e-8 units an unsigned decimal text stands for. */
  function UnsignedUnits(s: string): nat {
    var d := DotAt(s);
    var frac := if d < |s| then s[d + 1..] else "";
    if |frac| > 8 then 0 else DecimalValue(s[..d]) * ONE + DecimalValue(frac) * Pow10(8 - |frac|)
  }

  function Units(s: string): int {
    if s != "" && s[0] == '-' then 0 - UnsignedUnits(s[1..]) else UnsignedUnits(s)
  }

  lemma {:induction false} DecimalSpells(n: nat)
    ensures DecimalValue(Decimal(n)) == n
  {
    if n >= 10 {
      DecimalSpells(n / 10);
      assert Decimal(n)[..|Decimal(n)| - 1] == Decimal(n / 10);
    } else {
      assert Decimal(n)[..0] == "";
    }
  }

  lemma {:induction false} FixedSpells(n: nat, k: nat)
    requires n < Pow10(k)
    ensures DecimalValue(Fixed(n, k)) == n
  {
    if k > 0 {
      FixedSpells(n / 10, k - 1);
      assert Fixed(n, k)[..k - 1] == Fixed(n / 10, k - 1);
    }
  }

  /** Trailing zeros of the fraction do not change what it stands for. */
  lemma {:induction false} StripKeepsValue(t: string, k: nat)
    requires |t| <= k
    ensures DecimalValue(StripZeros(t)) * Pow10(k - |StripZeros(t)|) == DecimalValue(t) * Pow10(k - |t|)
  {
    if t != "" && t[|t| - 1] == '0' {
      var u := t[..|t| - 1];
      StripKeepsValue(u, k);
      assert Pow10(k - |u|) == 10 * Pow10(k - |t|);
      assert DecimalValue(t) == DecimalValue(u) * 10;
      TenTimes(DecimalValue(u), Pow10(k - |t|));
    }
  }

  lemma TenTimes(v: nat, p: nat)
    ensures v * (10 * p) == v * 10 * p
  {
  }

  lemma DotAfter(front: string, rest: string)
    requires AllDigits(front) && (rest == "" || rest[0] == '.')
    ensures DotAt(front + rest) == |front|
  {
    var s := front + rest;
    var d := DotAt(s);
    assert forall i :: 0 <= i < |front| ==> s[i] == front[i];
    assert rest != "" ==> s[|front|] == rest[0];
  }

  lemma EightDigits()
    ensures Pow10(8) == ONE
  {
    assert Pow10(4) == 10000;
  }

  lemma UnsignedWire(m: nat)
    ensures var f := StripZeros(Fixed(m % ONE, 8));
      UnsignedUnits(Decimal(m / ONE) + (if f == "" then "" else "." + f)) == m
  {
    hide Decimal, Fixed, StripZeros, DotAt, Pow10;
    var front, t := Decimal(m / ONE), Fixed(m % ONE, 8);
    var f := StripZeros(t);
    EightDigits();
    DecimalSpells(m / ONE);
    FixedSpells(m % ONE, 8);
    StripKeepsValue(t, 8);
    PowZero();
    var rest := if f == "" then "" else "." + f;
    var s := front + rest;
    DotAfter(front, rest);
    assert s[..|front|] == front;
    if f != "" {
      assert s[|front| + 1..] == f;
    }
    assert m == m / ONE * ONE + m % ONE;
  }

  lemma PowZero()
    ensures Pow10(0) == 1 && DecimalValue("") == 0
  {
  }

  /** Parsing the wire text returns the number, for every number; so different numbers print differently. */
  lemma WireParses(n: int)
    ensures Units(Wire(n)) == n
  {
    hide Decimal, Fixed, StripZeros, UnsignedUnits;
    var m := if n < 0 then -n else n;
    UnsignedWire(m);
    var f := StripZeros(Fixed(m % ONE, 8));
    var u := Decimal(m / ONE) + (if f == "" then "" else "." + f);
    if n < 0 {
      assert Wire(n) == "-" + u;
      assert Wire(n)[1..] == u;
    } else {
      assert Wire(n) == u;
      assert '0' <= u[0] <= '9';
    }
  }

  lemma WireInjective(m: int, n: int)
    requires Wire(m) == Wire(n)
    ensures m == n
  {
    WireParses(m);
    WireParses(n);
  }

  /** The text ends in a digit, and in no zero after a dot. */
  lemma WireCanonical(n: int)
    ensures var s := Wire(n);
      && s != "" && '0' <= s[|s| - 1] <= '9'
      && ((exists i :: 0 <= i < |s| && s[i] == '.') ==> s[|s| - 1] != '0')
  {
    hide Decimal, Fixed, StripZeros;
    var m := if n < 0 then -n else n;
    var t := Fixed(m % ONE, 8);
    var f := StripZeros(t);
    if f != "" {
      assert f[|f| - 1] == t[|f| - 1];
    }
  }

  lemma {:induction false} NoLeadingZero(n: nat)
    ensures Decimal(n)[0] == '0' <==> n == 0
    ensures n < 10 ==> |Decimal(n)| == 1
  {
    if n >= 10 {
      NoLeadingZero(n / 10);
      assert Decimal(n)[0] == Decimal(n / 10)[0];
    }
  }

  /** A minus sign is there for the negative numbers only, and the whole part has no zero in front of another digit. */
  lemma WholePartCanonical(n: int)
    ensures var s := Wire(n);
      && (s[0] == '-' <==> n < 0)
      && var u := if n < 0 then s[1..] else s;
         u != "" && '0' <= u[0] <= '9' && (u[0] == '0' && |u| > 1 ==> u[1] == '.')
    ensures Wire(0) == "0"
  {
    hide Decimal, Fixed, StripZeros;
    var m := if n < 0 then -n else n;
    NoLeadingZero(m / ONE);
    var f := StripZeros(Fixed(m % ONE, 8));
    var u := Decimal(m / ONE) + (if f == "" then "" else "." + f);
    assert Wire(n) == (if n < 0 then "-" else "") + u;
    assert n < 0 ==> Wire(n)[1..] == u;
    Nothing();
  }

  lemma Nothing()
    ensures Wire(0) == "0"
  {
    ZeroFixed(8);
    AllZeros(Fixed(0, 8));
    assert Decimal(0) == "0";
  }

  lemma {:induction false} ZeroFixed(k: nat)
    ensures forall i :: 0 <= i < k ==> Fixed(0, k)[i] == '0'
  {
    if k > 0 {
      ZeroFixed(k - 1);
    }
  }

  lemma {:induction false} AllZeros(t: string)
    requires forall i :: 0 <= i < |t| ==> t[i] == '0'
    ensures StripZeros(t) == ""
  {
    if t != "" {
      AllZeros(t[..|t| - 1]);
    }
  }

  /** What a text is read as: the whole part counts 1e8 units each, and the fraction's digits 1e7, 1e6 and so on. */
  lemma UnitsOfText(front: string, frac: string)
    requires AllDigits(front) && AllDigits(frac) && |frac| <= 8 && front != ""
    ensures Units(front) == DecimalValue(front) * 100000000
    ensures Units(front + "." + frac) ==
      DecimalValue(front) * 100000000 +
      DecimalValue(frac) * [100000000, 10000000, 1000000, 100000, 10000, 1000, 100, 10, 1][|frac|]
  {
    hide AllDigits, DecimalValue;
    DigitFirst(front);
    DotAfter(front, "");
    assert front + "" == front;
    DotAfter(front, "." + frac);
    var s := front + ("." + frac);
    assert s == front + "." + frac;
    assert s[..|front|] == front && s[|front| + 1..] == frac;
    TenPowers(8 - |frac|);
    NoFraction();
  }

  lemma DigitFirst(front: string)
    requires AllDigits(front) && front != ""
    ensures front[0] != '-'
  {
  }

  lemma NoFraction()
    ensures DecimalValue("") == 0 && Pow10(8) == 100000000
  {
    EightDigits();
  }

  lemma TenPowers(k: nat)
    requires k <= 8
    ensures Pow10(k) == [100000000, 10000000, 1000000, 100000, 10000, 1000, 100, 10, 1][8 - k]
  {
    assert Pow10(0) == 1 && Pow10(1) == 10 && Pow10(2) == 100 && Pow10(3) == 1000 && Pow10(4) == 10000;
    assert Pow10(5) == 100000 && Pow10(6) == 1000000 && Pow10(7) == 10000000;
    EightDigits();
  }

  // ---- rounding

  /** The multiple of 1e-8 that `%.8f` prints; what it does with a tie does not matter below. */
  function Nearest(x: real): int {
    (x * 100000000.0 + 0.5).Floor
  }

  /** `x` is less than 1e-12 away from `n` units of 1e-8. */
  predicate Near(x: real, n: int) {
    -0.0001 < x * 100000000.0 - n as real < 0.0001
  }

  lemma NearMeans(x: real, n: int)
    ensures Near(x, n) <==> -0.000000000001 < x - n as real / 100000000.0 < 0.000000000001
  {
    var d := x - n as real / 100000000.0;
    assert d * 100000000.0 == x * 100000000.0 - n as real;
  }

  /** There is at most one multiple that near, and it is the one printed. */
  lemma NearIsNearest(x: real, n: int)
    requires Near(x, n)
    ensures Nearest(x) == n
  {
    var y := x * 100000000.0 + 0.5;
    assert n as real <= y < n as real + 1.0;
    assert y.Floor as real <= y < y.Floor as real + 1.0;
  }

  /**
   Accepts exactly the numbers less than 1e-12 away from a multiple of 1e-8, and prints that
   multiple: reading the text back is never off by more than that.
   */
  method FloatToWire(x: real) returns (r: Result<string>)
    ensures r.Success? <==> exists n :: Near(x, n)
    ensures r.Success? ==> Near(x, Units(r.value))
    ensures forall n :: Near(x, n) ==> r == Success(Wire(n))
  {
    hide Near, Units, Wire, Nearest;
    var n := Nearest(x);
    forall m | Near(x, m)
      ensures m == n
    {
      NearIsNearest(x, m);
    }
    if !Near(x, n) {
      return Failure;
    }
    var s := PrintShort(n);
    WireParses(n);
    return Success(s);
  }
}
