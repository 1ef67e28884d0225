/**
 Hexadecimal text and big-endian words: `hexToBytes`, `toHex`, `toHexPadded` and
 `encodeUint256` of src/signing/SigningHelpers.cpp.
 */
module Hex {
  import opened Arithmetic
  import opened Wrappers
  import Bits

  type Byte = Bits.Byte
  type Nibble = n: nat | n < 16

  // ---- big-endian numbers

  /** The number a byte string spells, first byte highest. */
  function Value(b: seq<Byte>): nat {
    if b == [] then 0 else Value(b[..|b| - 1]) * 256 + b[|b| - 1]
  }

  /** The low `n` bytes of `v`, highest first. */
  function BigEndian(v: nat, n: nat): (b: seq<Byte>)
    ensures |b| == n
  {
    if n == 0 then [] else BigEndian(v / 256, n - 1) + [v % 256]
  }

  function Pow256(n: nat): (r: nat)
    ensures r > 0
  {
    if n == 0 then 1 else 256 * Pow256(n - 1)
  }

  lemma {:induction false} ValueOfBigEndian(v: nat, n: nat)
    requires v < Pow256(n)
    ensures Value(BigEndian(v, n)) == v
  {
    if n > 0 {
      ValueOfBigEndian(v / 256, n - 1);
      assert BigEndian(v, n)[..n - 1] == BigEndian(v / 256, n - 1);
    }
  }

  /** Byte strings of one length are told apart by their values. */
  lemma {:induction false} SameValue(a: seq<Byte>, b: seq<Byte>)
    requires |a| == |b| && Value(a) == Value(b)
    ensures a == b
  {
    if a != [] {
      var n := |a| - 1;
      assert a[n] == b[n];
      SameValue(a[..n], b[..n]);
      assert a == a[..n] + [a[n]] && b == b[..n] + [b[n]];
    }
  }

  lemma {:induction false} BigEndianAt(v: nat, n: nat, i: nat)
    requires i < n
    ensures BigEndian(v, n)[n - 1 - i] == v / Pow256(i) % 256
  {
    if i > 0 {
      BigEndianAt(v / 256, n - 1, i - 1);
      DivDiv(v, Pow256(i - 1));
    }
  }

  lemma DivDiv(v: nat, p: nat)
    requires p > 0
    ensures v / (256 * p) == v / 256 / p
  {
    var q, r := v / 256, v % 256;
    var a, s := q / p, q % p;
    assert q == a * p + s;
    assert v == a * (256 * p) + (s * 256 + r);
    assert s * 256 + r < 256 * p;
    ModOf(256 * p, a, s * 256 + r);
  }

  lemma BigEndianZero(v: nat, n: nat, i: nat)
    requires v < Pow256(i) && i <= n
    ensures BigEndian(v, n)[..n - i] == seq(n - i, k => 0)
  {
    hide Pow256, BigEndian;
    if i < n {
      forall k | 0 <= k < n - i
        ensures BigEndian(v, n)[k] == 0
      {
        BigEndianAt(v, n, n - 1 - k);
        PowGrows(i, n - 1 - k);
        ModOf(Pow256(n - 1 - k), 0, v);
      }
    }
  }

  lemma {:induction false} PowGrows(i: nat, j: nat)
    requires i <= j
    ensures Pow256(i) <= Pow256(j)
  {
    if i < j {
      PowGrows(i, j - 1);
    }
  }

  lemma PowIsWord()
    ensures Pow256(8) == 0x1_0000_0000_0000_0000
  {
    assert Pow256(4) == 0x1_0000_0000;
  }

  /** `value >> (idx * 8)` and its low byte. */
  function ByteOf(value: nat, idx: nat): Byte {
    value / Pow256(idx) % 256
  }

  /** The 32-byte word of a 64-bit number has that number as its big-endian value. */
  method EncodeUint256(value: nat) returns (result: array<Byte>)
    requires value < 0x1_0000_0000_0000_0000
    ensures fresh(result) && result[..] == BigEndian(value, 32)
    ensures Value(result[..]) == value
  {
    result := new Byte[32](i => 0);
    for idx := 0 to 8
      invariant forall k :: 0 <= k < 32 ==> result[k] == if 31 - k < idx then ByteOf(value, 31 - k) else 0
    {
      result[31 - idx] := ByteOf(value, idx);
    }
    WordBytes(value, result[..]);
  }

  lemma WordBytes(value: nat, r: seq<Byte>)
    requires value < 0x1_0000_0000_0000_0000 && |r| == 32
    requires forall k :: 0 <= k < 32 ==> r[k] == if 31 - k < 8 then ByteOf(value, 31 - k) else 0
    ensures r == BigEndian(value, 32) && Value(r) == value
  {
    hide Pow256;
    PowIsWord();
    BigEndianZero(value, 32, 8);
    forall k | 24 <= k < 32
      ensures BigEndian(value, 32)[k] == r[k]
    {
      BigEndianAt(value, 32, 31 - k);
    }
    assert forall k :: 0 <= k < 24 ==> BigEndian(value, 32)[k] == BigEndian(value, 32)[..24][k] == 0;
    PowGrows(8, 32);
    ValueOfBigEndian(value, 32);
  }

  // ---- digits

  function Digit(n: Nibble): char {
    if n < 10 then '0' + n as char else 'a' + (n - 10) as char
  }

  predicate IsDigit(c: char) {
    '0' <= c <= '9' || 'a' <= c <= 'f' || 'A' <= c <= 'F'
  }

  function NibbleOf(c: char): (n: Nibble)
    requires IsDigit(c)
  {
    if '0' <= c <= '9' then c as int - '0' as int
    else if 'a' <= c <= 'f' then c as int - 'a' as int + 10
    else c as int - 'A' as int + 10
  }

  lemma NibbleOfDigit(n: Nibble)
    ensures IsDigit(Digit(n)) && NibbleOf(Digit(n)) == n && (Digit(n) == '0' <==> n == 0)
  {
  }

  /** Printing uses lower case; reading takes both cases, with the same values. */
  lemma DigitTexts(n: Nibble)
    ensures Digit(n) == "0123456789abcdef"[n]
    ensures IsDigit("0123456789abcdef"[n]) && NibbleOf("0123456789abcdef"[n]) == n
    ensures IsDigit("0123456789ABCDEF"[n]) && NibbleOf("0123456789ABCDEF"[n]) == n
  {
  }

  /** Nothing else is a digit. */
  lemma DigitsExactly(c: char)
    ensures IsDigit(c) <==> exists n: Nibble :: c == "0123456789abcdef"[n] || c == "0123456789ABCDEF"[n]
  {
    if IsDigit(c) {
      var n := NibbleOf(c);
      DigitTexts(n);
      assert c == "0123456789abcdef"[n] || c == "0123456789ABCDEF"[n];
    }
  }

  function Lower(c: char): char {
    if 'A' <= c <= 'Z' then c - 'A' + 'a' else c
  }

  predicate AllDigits(s: string) {
    forall i :: 0 <= i < |s| ==> IsDigit(s[i])
  }

  /** The number a string of hex digits spells. */
  function DigitsValue(s: string): nat
    requires AllDigits(s)
  {
    if s == [] then 0 else DigitsValue(s[..|s| - 1]) * 16 + NibbleOf(s[|s| - 1])
  }

  /** Two digits for every byte. */
  function Digits(data: seq<Byte>): (s: string)
    ensures |s| == 2 * |data|
  {
    if data == [] then ""
    else
      var b := data[|data| - 1];
      Digits(data[..|data| - 1]) + [Digit(b / 16), Digit(b % 16)]
  }

  lemma {:induction false} DigitsSpell(data: seq<Byte>)
    ensures AllDigits(Digits(data)) && DigitsValue(Digits(data)) == Value(data)
  {
    if data != [] {
      var n := |data| - 1;
      var b := data[n];
      var s := Digits(data[..n]);
      DigitsSpell(data[..n]);
      NibbleOfDigit(b / 16);
      NibbleOfDigit(b % 16);
      var t := s + [Digit(b / 16)];
      assert Digits(data) == t + [Digit(b % 16)];
      assert (t + [Digit(b % 16)])[..|t|] == t && t[..|s|] == s;
    }
  }

  // ---- parsing

  /** The text without its `0x`, and with a zero in front when its length is odd. */
  function Clean(hex: string): (s: string)
    ensures |s| % 2 == 0
  {
    var bare := if |hex| >= 2 && hex[0] == '0' && (hex[1] == 'x' || hex[1] == 'X') then hex[2..] else hex;
    if |bare| % 2 != 0 then "0" + bare else bare
  }

  /** The bytes a string of pairs of digits spells. */
  function Pairs(s: string): (b: seq<Byte>)
    requires |s| % 2 == 0 && AllDigits(s)
    ensures |b| == |s| / 2
  {
    if s == "" then []
    else
      var n := |s| - 2;
      Pairs(s[..n]) + [NibbleOf(s[n]) * 16 + NibbleOf(s[n + 1])]
  }

  function ParsedHex(hex: string): Result<seq<Byte>> {
    if AllDigits(Clean(hex)) then Success(Pairs(Clean(hex))) else Failure
  }

  lemma {:induction false} PairsSpell(s: string)
    requires |s| % 2 == 0 && AllDigits(s)
    ensures Value(Pairs(s)) == DigitsValue(s)
  {
    if s != "" {
      var n := |s| - 2;
      PairsSpell(s[..n]);
      assert s[..n + 1][..n] == s[..n];
      assert Pairs(s)[..n / 2] == Pairs(s[..n]);
    }
  }

  lemma {:induction false} PairsOfDigits(data: seq<Byte>)
    ensures AllDigits(Digits(data)) && Pairs(Digits(data)) == data
  {
    hide Pairs, Digit, NibbleOf, IsDigit;
    NoPairs();
    DigitsSpell(data);
    if data != [] {
      var n := |data| - 1;
      var b := data[n];
      PairsOfDigits(data[..n]);
      NibbleOfDigit(b / 16);
      NibbleOfDigit(b % 16);
      OneMorePair(Digits(data), 2 * n);
      assert Digits(data)[..2 * n] == Digits(data[..n]);
      assert Digits(data)[..2 * n + 2] == Digits(data);
      assert data == data[..n] + [b];
    }
  }

  lemma NoPairs()
    ensures Pairs("") == []
  {
  }

  lemma OneMorePair(s: string, n: nat)
    requires n % 2 == 0 && n + 2 <= |s| && AllDigits(s[..n]) && IsDigit(s[n]) && IsDigit(s[n + 1])
    ensures AllDigits(s[..n + 2])
    ensures Pairs(s[..n + 2]) == Pairs(s[..n]) + [NibbleOf(s[n]) * 16 + NibbleOf(s[n + 1])]
  {
    hide NibbleOf, IsDigit;
    assert s[..n + 2][..n] == s[..n];
  }

  /** Digits parse to the bytes of their value, with or without a prefix of either case, and an odd one stands alone. */
  lemma DigitsParse(s: string)
    requires AllDigits(s)
    ensures ParsedHex(s) == ParsedHex("0x" + s) == ParsedHex("0X" + s)
    ensures var b := ParsedHex(s); b.Success? && |b.value| == (|s| + 1) / 2 && Value(b.value) == DigitsValue(s)
  {
    hide Pairs, DigitsValue;
    assert ("0x" + s)[2..] == s && ("0X" + s)[2..] == s;
    var clean := if |s| % 2 != 0 then "0" + s else s;
    assert Clean(s) == Clean("0x" + s) == Clean("0X" + s) == clean;
    assert AllDigits(clean);
    PairsSpell(clean);
    if |s| % 2 != 0 {
      ZeroFront(clean);
      assert clean[1..] == s;
    }
  }

  function LowerText(s: string): (r: string)
    ensures |r| == |s|
  {
    seq(|s|, i requires 0 <= i < |s| => Lower(s[i]))
  }

  lemma LowerDigit(c: char)
    ensures IsDigit(Lower(c)) <==> IsDigit(c)
    ensures IsDigit(c) ==> NibbleOf(Lower(c)) == NibbleOf(c)
  {
  }

  lemma {:induction false} LowerPairs(s: string)
    requires |s| % 2 == 0 && AllDigits(s)
    ensures AllDigits(LowerText(s)) && Pairs(LowerText(s)) == Pairs(s)
  {
    hide NibbleOf, IsDigit, Lower;
    forall i | 0 <= i < |s|
      ensures IsDigit(LowerText(s)[i])
    {
      LowerDigit(s[i]);
    }
    if s != "" {
      var n := |s| - 2;
      LowerPairs(s[..n]);
      assert LowerText(s)[..n] == LowerText(s[..n]);
      LowerDigit(s[n]);
      LowerDigit(s[n + 1]);
    }
  }

  lemma LowerClean(hex: string)
    ensures Clean(LowerText(hex)) == LowerText(Clean(hex))
  {
    var bare := if |hex| >= 2 && hex[0] == '0' && (hex[1] == 'x' || hex[1] == 'X') then hex[2..] else hex;
    var t := LowerText(hex);
    assert |hex| >= 2 ==> t[0] == Lower(hex[0]) && t[1] == Lower(hex[1]);
    assert |hex| >= 2 ==> LowerText(hex[2..]) == t[2..];
    assert LowerText("0" + bare) == "0" + LowerText(bare);
  }

  /** Upper and lower case read the same, and fail the same. */
  lemma CaseBlind(hex: string)
    ensures ParsedHex(LowerText(hex)) == ParsedHex(hex)
  {
    hide Clean, Pairs, NibbleOf, IsDigit, Lower;
    LowerClean(hex);
    var s := Clean(hex);
    if AllDigits(s) {
      LowerPairs(s);
    } else {
      var i :| 0 <= i < |s| && !IsDigit(s[i]);
      LowerDigit(s[i]);
      assert !IsDigit(LowerText(s)[i]);
    }
  }

  /** hexToBytes: fails exactly on a character that is no hex digit. */
  method HexToBytes(hex: string) returns (r: Result<seq<Byte>>)
    ensures r == ParsedHex(hex)
  {
    hide Clean, Pairs, NibbleOf, IsDigit;
    NoPairs();
    var clean := Clean(hex);
    var bytes: seq<Byte> := [];
    for idx := 0 to |clean| / 2
      invariant AllDigits(clean[..2 * idx]) && bytes == Pairs(clean[..2 * idx])
    {
      var hi, lo := clean[idx * 2], clean[idx * 2 + 1];
      if !IsDigit(hi) || !IsDigit(lo) {
        return Failure;
      }
      OneMorePair(clean, 2 * idx);
      bytes := bytes + [NibbleOf(hi) * 16 + NibbleOf(lo)];
    }
    assert clean[..|clean|] == clean;
    return Success(bytes);
  }

  // ---- printing

  function Padded(data: seq<Byte>): string {
    "0x" + Digits(data)
  }

  /** The text itself: 0x, and two lower-case digits for every byte. */
  lemma PaddedText(data: seq<Byte>, i: nat)
    requires i < |data|
    ensures var s := Padded(data);
      && |s| == 2 + 2 * |data| && s[..2] == "0x"
      && s[2 + 2 * i] == "0123456789abcdef"[data[i] / 16] && s[3 + 2 * i] == "0123456789abcdef"[data[i] % 16]
  {
    hide Digit;
    DigitTexts(data[i] / 16);
    DigitTexts(data[i] % 16);
    DigitsAt(data, i);
  }

  lemma {:induction false} DigitsAt(data: seq<Byte>, i: nat)
    requires i < |data|
    ensures Digits(data)[2 * i] == Digit(data[i] / 16) && Digits(data)[2 * i + 1] == Digit(data[i] % 16)
  {
    hide Digit;
    if i < |data| - 1 {
      DigitsAt(data[..|data| - 1], i);
    }
  }

  method ToHexPadded(data: seq<Byte>) returns (s: string)
    ensures s == Padded(data)
    ensures ParsedHex(s) == Success(data)
  {
    s := "0x";
    for idx := 0 to |data|
      invariant s == "0x" + Digits(data[..idx])
    {
      assert data[..idx + 1][..idx] == data[..idx];
      s := s + [Digit(data[idx] / 16), Digit(data[idx] % 16)];
    }
    assert data[..|data|] == data;
    ParsedPadded(data);
  }

  /** Parsing undoes padded printing, for every byte string. */
  lemma ParsedPadded(data: seq<Byte>)
    ensures ParsedHex(Padded(data)) == Success(data)
  {
    PairsOfDigits(data);
    assert Padded(data)[2..] == Digits(data);
  }

  /** The text from its first non-zero digit on. */
  function Stripped(s: string): (r: string)
    ensures r == "" || r[0] != '0'
  {
    if s == "" then "" else if s[0] == '0' then Stripped(s[1..]) else s
  }

  function Shortest(data: seq<Byte>): string {
    var s := Stripped(Digits(data));
    if s == "" then "0x0" else "0x" + s
  }

  lemma {:induction false} ZeroFront(s: string)
    requires AllDigits(s) && s != "" && s[0] == '0'
    ensures DigitsValue(s[1..]) == DigitsValue(s)
  {
    if |s| > 1 {
      var n := |s| - 1;
      ZeroFront(s[..n]);
      assert s[1..][..n - 1] == s[..n][1..];
    }
  }

  lemma {:induction false} StrippedValue(s: string)
    requires AllDigits(s)
    ensures AllDigits(Stripped(s)) && DigitsValue(Stripped(s)) == DigitsValue(s)
  {
    if s != "" && s[0] == '0' {
      ZeroFront(s);
      StrippedValue(s[1..]);
    }
  }

  method ToHex(data: seq<Byte>) returns (s: string)
    ensures s == Shortest(data)
    ensures s == "0x0" || (|s| > 2 && s[..2] == "0x" && s[2] != '0')
  {
    var result := ToHexPadded(data);
    var first := 2;
    while first < |result| && result[first] == '0'
      invariant 2 <= first <= |result|
      invariant Stripped(result[first..]) == Stripped(Digits(data))
    {
      assert result[first..][1..] == result[first + 1..];
      first := first + 1;
    }
    if first == |result| {
      return "0x0";
    }
    return "0x" + result[first..];
  }

  /** Parsing the shortest form gives back the value, though not always the leading zero bytes. */
  lemma ParsedShortest(data: seq<Byte>)
    ensures ParsedHex(Shortest(data)).Success? && Value(ParsedHex(Shortest(data)).value) == Value(data)
  {
    var s := Stripped(Digits(data));
    DigitsSpell(data);
    StrippedValue(Digits(data));
    var t := Shortest(data)[2..];
    assert t == if s == "" then "0" else s;
    var c := Clean(Shortest(data));
    assert DigitsValue("0") == 0 by {
      assert "0"[..0] == "";
    }
    if |t| % 2 != 0 {
      assert c == "0" + t;
      ZeroFront(c);
      assert c[1..] == t;
    }
    PairsSpell(c);
  }

  /** On byte strings of one length, such as the halves of a signature, the shortest form loses nothing. */
  lemma ShortestInjective(a: seq<Byte>, b: seq<Byte>)
    requires |a| == |b| && Shortest(a) == Shortest(b)
    ensures a == b
  {
    ParsedShortest(a);
    ParsedShortest(b);
    SameValue(a, b);
  }
}
