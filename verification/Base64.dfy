/**
 The base64 decoder of src/websocket/WebsocketParsingUtils.cpp. It keeps one 32-bit
 accumulator that is never masked; only its low bits matter, and they never go wrong.
 */
module Base64 {
  import opened Arithmetic
  import Hex
  import Bits

  type Byte = Bits.Byte
  type Sextet = n: nat | n < 64

  // ---- the alphabet

  /** A to Z, a to z, 0 to 9, plus and slash. */
  function AlphabetAt(d: Sextet): (c: Byte) {
    if d < 26 then 'A' as nat + d
    else if d < 52 then 'a' as nat + (d - 26)
    else if d < 62 then '0' as nat + (d - 52)
    else if d == 62 then '+' as nat
    else '/' as nat
  }

  predicate InAlphabet(c: Byte) {
    || 'A' as nat <= c <= 'Z' as nat
    || 'a' as nat <= c <= 'z' as nat
    || '0' as nat <= c <= '9' as nat
    || c == '+' as nat
    || c == '/' as nat
  }

  /** The entry of `table`, where it is not -1. */
  function Lookup(c: Byte): (d: Sextet)
    requires InAlphabet(c)
    ensures AlphabetAt(d) == c
  {
    if 'A' as nat <= c <= 'Z' as nat then c - 'A' as nat
    else if 'a' as nat <= c <= 'z' as nat then c - 'a' as nat + 26
    else if '0' as nat <= c <= '9' as nat then c - '0' as nat + 52
    else if c == '+' as nat then 62
    else 63
  }

  lemma UpperCase(i: nat)
    requires i < 26
    ensures AlphabetAt(i) as char == "ABCDEFGHIJKLMNOPQRSTUVWXYZ"[i]
  {
    match i {
      case 0 => case 1 => case 2 => case 3 => case 4 => case 5 => case 6 => case 7 => case 8 => case 9 =>
      case 10 => case 11 => case 12 =>
      case 13 => case 14 => case 15 => case 16 => case 17 => case 18 => case 19 => case 20 => case 21 =>
      case 22 => case 23 => case 24 => case _ =>
    }
  }

  lemma LowerCase(i: nat)
    requires i < 26
    ensures AlphabetAt(26 + i) as char == "abcdefghijklmnopqrstuvwxyz"[i]
  {
    match i {
      case 0 => case 1 => case 2 => case 3 => case 4 => case 5 => case 6 => case 7 => case 8 => case 9 =>
      case 10 => case 11 => case 12 =>
      case 13 => case 14 => case 15 => case 16 => case 17 => case 18 => case 19 => case 20 => case 21 =>
      case 22 => case 23 => case 24 => case _ =>
    }
  }

  lemma Figures(i: nat)
    requires i < 10
    ensures AlphabetAt(52 + i) as char == "0123456789"[i]
  {
    match i {
      case 0 => case 1 => case 2 => case 3 => case 4 => case 5 => case 6 => case 7 => case 8 => case _ =>
    }
  }

  /** The alphabet of RFC 4648, table 1. */
  lemma Alphabet(d: Sextet)
    ensures var text := "ABCDEFGHIJKLMNOPQRSTUVWXYZ" + "abcdefghijklmnopqrstuvwxyz" + "0123456789" + "+/";
      |text| == 64 && AlphabetAt(d) as char == text[d]
  {
    hide AlphabetAt;
    if d < 26 {
      UpperCase(d);
    } else if d < 52 {
      LowerCase(d - 26);
    } else if d < 62 {
      Figures(d - 52);
    } else {
      Signs();
    }
  }

  lemma Signs()
    ensures AlphabetAt(62) as char == '+' && AlphabetAt(63) as char == '/'
  {
  }

  /** A character is looked up exactly if it is in the alphabet. */
  lemma InAlphabetExactly(c: Byte)
    ensures InAlphabet(c) <==> exists d: Sextet :: AlphabetAt(d) == c
  {
    if InAlphabet(c) {
      assert AlphabetAt(Lookup(c)) == c;
    }
  }

  /** The sextets of a text: every character outside the alphabet is skipped. */
  function Sextets(input: seq<Byte>): (ds: seq<Sextet>) {
    if input == [] then []
    else
      var n := |input| - 1;
      Sextets(input[..n]) + (if InAlphabet(input[n]) then [Lookup(input[n])] else [])
  }

  // ---- what decoding means

  function First(a: nat, b: nat): Byte
    requires a < 64 && b < 64
  {
    a * 4 + b / 16
  }

  function Second(a: nat, b: nat): Byte
    requires a < 64 && b < 64
  {
    a % 16 * 16 + b / 4
  }

  function Third(a: nat, b: nat): Byte
    requires a < 64 && b < 64
  {
    a % 4 * 64 + b
  }

  /** Byte `j` of the bit string the sextets spell, most significant bits first. */
  function ByteAt(ds: seq<Sextet>, j: nat): (b: Byte)
    requires 4 * j + 4 <= 3 * |ds|
  {
    var i := j / 3 * 4;
    match j % 3
    case 0 => First(ds[i], ds[i + 1])
    case 1 => Second(ds[i + 1], ds[i + 2])
    case _ => Third(ds[i + 2], ds[i + 3])
  }

  /** Every whole byte of that bit string. */
  function Decoded(ds: seq<Sextet>): (r: seq<Byte>)
    ensures |r| == |ds| * 3 / 4
  {
    seq(|ds| * 3 / 4, j requires 0 <= j < |ds| * 3 / 4 => ByteAt(ds, j))
  }

  lemma DecodedPrefix(ds: seq<Sextet>, d: Sextet)
    ensures Decoded(ds + [d])[..|ds| * 3 / 4] == Decoded(ds)
  {
  }

  // ---- the accumulator

  /** What `val` would be without a limit on its width. */
  function Unbounded(ds: seq<Sextet>): nat {
    if ds == [] then 0 else Unbounded(ds[..|ds| - 1]) * 64 + ds[|ds| - 1]
  }

  lemma Int32LowBits(n: int)
    ensures Int32(n) % 4096 == n % 4096
  {
  }

  lemma Int32Congruent(m: int, n: int)
    requires m % 0x1_0000_0000 == n % 0x1_0000_0000
    ensures Int32(m) == Int32(n)
  {
    hide Int32;
    var a, b := Int32(m), Int32(n);
    assert a % 0x1_0000_0000 == b % 0x1_0000_0000;
  }

  lemma AddMultiple(x: int, q: int)
    ensures (x + q * 0x1_0000_0000) % 0x1_0000_0000 == x % 0x1_0000_0000
  {
  }

  lemma Int32Offset(v: int) returns (q: int)
    ensures Int32(v) == v + q * 0x1_0000_0000
  {
    q := -((v + 0x8000_0000) / 0x1_0000_0000);
  }

  lemma Int32TimesPower(v: int)
    ensures (Int32(v) * 64) % 0x1_0000_0000 == (v * 64) % 0x1_0000_0000 && Int32(v * 64) % 64 == 0
  {
    hide Int32;
    var q := Int32Offset(v);
    AddMultiple(v * 64, q * 64);
    var p := Int32Offset(v * 64);
    assert Int32(v * 64) == (v + p * 0x400_0000) * 64;
  }

  /** `(val << 6) + digit` never overflows past the shift, and keeps the accumulator right modulo 2^32. */
  lemma Int32Accumulates(v: int, d: Sextet)
    ensures Int32(Int32(v) * 64) + d == Int32(v * 64 + d)
  {
    hide Int32;
    Int32TimesPower(v);
    Int32Congruent(Int32(v) * 64, v * 64);
    var s := Int32(v * 64);
    assert s + d < 0x8000_0000;
    var p := Int32Offset(v * 64);
    AddMultiple(v * 64 + d, p);
    Int32Congruent(s + d, v * 64 + d);
    Int32Same(s + d);
  }

  lemma Int32Same(n: int)
    requires -0x8000_0000 <= n < 0x8000_0000
    ensures Int32(n) == n
  {
  }

  lemma LastTwo(ds: seq<Sextet>)
    requires |ds| >= 2
    ensures var a: int, b: int := ds[|ds| - 2], ds[|ds| - 1]; Unbounded(ds) % 4096 == a * 64 + b
  {
    var n := |ds|;
    var u := Unbounded(ds[..n - 2]);
    var a: int, b: int := ds[n - 2], ds[n - 1];
    assert ds[..n - 1][..n - 2] == ds[..n - 2];
    assert Unbounded(ds) == u * 4096 + (a * 64 + b);
  }

  /** `bits` after `k` sextets: minus eight plus the bits not yet written out. */
  function BitsAfter(k: nat): int {
    6 * k - 8 * (3 * k / 4) - 8
  }

  function Shr(v: int, bits: nat): int
    requires bits == 0 || bits == 2 || bits == 4
  {
    if bits == 0 then v else if bits == 2 then v / 4 else v / 16
  }

  /** The byte pushed for the last sextet is the next byte of the text; the accumulator's width does not show. */
  lemma PushedByte(ds: seq<Sextet>)
    requires |ds| % 4 != 1 && |ds| > 0
    ensures var bits := BitsAfter(|ds| - 1) + 6;
      && (bits == 0 || bits == 2 || bits == 4)
      && Shr(Int32(Unbounded(ds)), bits) % 256 == Shr(Unbounded(ds), bits) % 256
      && [Shr(Unbounded(ds), bits) % 256] == Decoded(ds)[(|ds| - 1) * 3 / 4..]
  {
    hide Int32, Unbounded, Decoded, Shr;
    var k := |ds|;
    LastTwo(ds);
    Int32LowBits(Unbounded(ds));
    hide BitsAfter, First, Second, Third;
    BitsAtPush(k);
    var bits := BitsAfter(k - 1) + 6;
    ByteOfLow(Unbounded(ds), bits);
    ByteOfLow(Int32(Unbounded(ds)), bits);
    ShiftedBy4(ds[k - 2], ds[k - 1]);
    ShiftedBy2(ds[k - 2], ds[k - 1]);
    ShiftedBy0(ds[k - 2], ds[k - 1]);
    LastByte(ds);
  }

  lemma BitsAtPush(k: nat)
    requires k > 0
    ensures BitsAfter(k - 1) + 6 == if k % 4 == 1 then -2 else if k % 4 == 2 then 4 else if k % 4 == 3 then 2 else 0
  {
    var q, r := (k - 1) / 4, (k - 1) % 4;
    assert k - 1 == 4 * q + r;
    ModOf(4, 3 * q + 3 * r / 4, 3 * r % 4);
    ModOf(4, if r == 3 then q + 1 else q, (r + 1) % 4);
  }

  lemma LastByte(ds: seq<Sextet>)
    requires |ds| % 4 != 1 && |ds| > 0
    ensures var k := |ds|; var a, b := ds[k - 2], ds[k - 1];
      Decoded(ds)[(k - 1) * 3 / 4..] ==
      [if k % 4 == 2 then First(a, b) else if k % 4 == 3 then Second(a, b) else Third(a, b)]
  {
    hide First, Second, Third;
    var k := |ds|;
    var j := (k - 1) * 3 / 4;
    LastIndex(k);
    assert Decoded(ds)[j] == ByteAt(ds, j);
  }

  lemma LastIndex(k: nat)
    requires k % 4 != 1 && k > 0
    ensures var j := (k - 1) * 3 / 4;
      && j + 1 == k * 3 / 4
      && j % 3 == (if k % 4 == 2 then 0 else if k % 4 == 3 then 1 else 2)
      && j / 3 * 4 + j % 3 == k - 2
  {
    var q, r := k / 4, k % 4;
    assert k == 4 * q + r;
    if r == 2 {
      ModOf(4, 3 * q, 3);
      ModOf(4, 3 * q + 1, 2);
      ModOf(3, q, 0);
    } else if r == 3 {
      ModOf(4, 3 * q + 1, 2);
      ModOf(4, 3 * q + 2, 1);
      ModOf(3, q, 1);
    } else {
      ModOf(4, 3 * q - 1, 1);
      ModOf(4, 3 * q, 0);
      ModOf(3, q - 1, 2);
    }
  }

  lemma ShiftedBy4(a: nat, b: nat)
    requires a < 64 && b < 64
    ensures Shr(a * 64 + b, 4) % 256 == First(a, b)
  {
    ModOf(16, a * 4 + b / 16, b % 16);
  }

  lemma ShiftedBy2(a: nat, b: nat)
    requires a < 64 && b < 64
    ensures Shr(a * 64 + b, 2) % 256 == Second(a, b)
  {
    ModOf(4, a * 16 + b / 4, b % 4);
    ModOf(256, a / 16, a % 16 * 16 + b / 4);
  }

  lemma ShiftedBy0(a: nat, b: nat)
    requires a < 64 && b < 64
    ensures Shr(a * 64 + b, 0) % 256 == Third(a, b)
  {
    ModOf(256, a / 4, a % 4 * 64 + b);
  }

  lemma ByteOfLow(v: int, bits: nat)
    requires bits == 0 || bits == 2 || bits == 4
    ensures Shr(v, bits) % 256 == Shr(v % 4096, bits) % 256
  {
    var q, w := v / 4096, v % 4096;
    assert v == q * 4096 + w;
    match bits
    case 0 =>
      Multiple256(q * 16, w);
    case 2 =>
      ModOf(4, q * 1024 + w / 4, w % 4);
      Multiple256(q * 4, w / 4);
    case _ =>
      ModOf(16, q * 256 + w / 16, w % 16);
      Multiple256(q, w / 16);
  }

  lemma Multiple256(q: int, w: int)
    ensures (q * 256 + w) % 256 == w % 256
  {
  }

  /** What one more sextet does to the output and to the bit count. */
  lemma OneMore(ds: seq<Sextet>, d: Sextet)
    ensures var more := ds + [d]; var bits := BitsAfter(|ds|) + 6;
      && (bits >= 0 ==> bits == 0 || bits == 2 || bits == 4)
      && BitsAfter(|more|) == (if bits >= 0 then bits - 8 else bits)
      && Decoded(more) == Decoded(ds) +
         (if bits >= 0 then [Shr(Int32(Unbounded(more)), bits) % 256] else [])
  {
    hide Int32, Unbounded, Shr, Decoded;
    var more := ds + [d];
    BitsAtPush(|more|);
    DecodedPrefix(ds, d);
    if |more| % 4 != 1 {
      PushedByte(more);
    }
    var n := |ds| * 3 / 4;
    assert Decoded(more) == Decoded(more)[..n] + Decoded(more)[n..];
  }

  method Base64Decode(input: seq<Byte>) returns (out: seq<Byte>)
    ensures out == Decoded(Sextets(input))
  {
    hide Int32, Unbounded, Decoded, Shr, BitsAfter, InAlphabet, Lookup;
    out := [];
    var val, bits := 0, -8;
    ghost var ds: seq<Sextet> := [];
    NothingYet();
    for n := 0 to |input|
      invariant ds == Sextets(input[..n])
      invariant out == Decoded(ds)
      invariant val == Int32(Unbounded(ds))
      invariant bits == BitsAfter(|ds|)
    {
      assert input[..n + 1][..n] == input[..n];
      var c := input[n];
      if InAlphabet(c) {
        var d := Lookup(c);
        OneMore(ds, d);
        NextUnbounded(ds, d);
        Int32Accumulates(Unbounded(ds), d);
        ds := ds + [d];
        val := Int32(val * 64) + d;
        bits := bits + 6;
        if bits >= 0 {
          out := out + [Shr(val, bits) % 256];
          bits := bits - 8;
        }
      }
    }
    assert input[..|input|] == input;
  }

  lemma NothingYet()
    ensures Decoded([]) == [] && Int32(Unbounded([])) == 0 && BitsAfter(0) == -8
  {
  }

  lemma NextUnbounded(ds: seq<Sextet>, d: Sextet)
    ensures Unbounded(ds + [d]) == Unbounded(ds) * 64 + d
  {
    assert (ds + [d])[..|ds|] == ds;
  }

  // ---- RFC 4648, section 4

  /** Byte `k` of the input, with zero bits after the end. */
  function InputByte(b: seq<Byte>, k: nat): Byte {
    if k < |b| then b[k] else 0
  }

  function SextetAt(b: seq<Byte>, i: nat): Sextet {
    var k := i / 4 * 3;
    match i % 4
    case 0 => InputByte(b, k) / 4
    case 1 => InputByte(b, k) % 4 * 16 + InputByte(b, k + 1) / 16
    case 2 => InputByte(b, k + 1) % 16 * 4 + InputByte(b, k + 2) / 64
    case _ => InputByte(b, k + 2) % 64
  }

  function EncodedSextets(b: seq<Byte>): (ds: seq<Sextet>)
    ensures |ds| == (|b| * 4 + 2) / 3
  {
    seq((|b| * 4 + 2) / 3, i requires 0 <= i => SextetAt(b, i))
  }

  function Text(ds: seq<Sextet>): (r: seq<Byte>)
    ensures |r| == |ds|
  {
    seq(|ds|, i requires 0 <= i < |ds| => AlphabetAt(ds[i]))
  }

  const PAD: Byte := 61

  /** The encoding, with its padding to a multiple of four characters or without. */
  function Encode(b: seq<Byte>, padded: bool): seq<Byte> {
    Text(EncodedSextets(b)) +
    if !padded || |b| % 3 == 0 then [] else if |b| % 3 == 1 then [PAD, PAD] else [PAD]
  }

  lemma {:induction false} SextetsOfText(ds: seq<Sextet>)
    ensures Sextets(Text(ds)) == ds
  {
    if ds != [] {
      var n := |ds| - 1;
      SextetsOfText(ds[..n]);
      assert Text(ds)[..n] == Text(ds[..n]);
      assert ds == ds[..n] + [ds[n]];
    }
  }

  lemma {:induction false} SextetsConcat(a: seq<Byte>, b: seq<Byte>)
    ensures Sextets(a + b) == Sextets(a) + Sextets(b)
  {
    if b == [] {
      assert a + b == a;
    } else {
      var n := |b| - 1;
      assert (a + b)[..|a + b| - 1] == a + b[..n];
      SextetsConcat(a, b[..n]);
    }
  }

  /** Two neighbouring sextets give back the byte they share. */
  lemma Reassembled(x: Byte, y: Byte)
    ensures First(x / 4, x % 4 * 16 + y / 16) == x
    ensures Second(x % 4 * 16 + y / 16, y % 16 * 4) == y
    ensures forall z: Byte :: Second(x % 4 * 16 + y / 16, y % 16 * 4 + z / 64) == y
    ensures forall z: Byte :: Third(y % 16 * 4 + z / 64, z % 64) == z
  {
    ModOf(16, x % 4, y / 16);
    ModOf(4, y % 16, 0);
    forall z: Byte
      ensures Second(x % 4 * 16 + y / 16, y % 16 * 4 + z / 64) == y
      ensures Third(y % 16 * 4 + z / 64, z % 64) == z
    {
      ModOf(4, y % 16, z / 64);
    }
  }

  lemma SextetOf(b: seq<Byte>, g: nat, i: nat)
    requires i < 4 && 4 * g + i < (|b| * 4 + 2) / 3
    ensures EncodedSextets(b)[4 * g + i] ==
      match i
      case 0 => InputByte(b, 3 * g) / 4
      case 1 => InputByte(b, 3 * g) % 4 * 16 + InputByte(b, 3 * g + 1) / 16
      case 2 => InputByte(b, 3 * g + 1) % 16 * 4 + InputByte(b, 3 * g + 2) / 64
      case _ => InputByte(b, 3 * g + 2) % 64
  {
    hide InputByte;
    assert (4 * g + i) / 4 == g && (4 * g + i) % 4 == i;
    assert EncodedSextets(b)[4 * g + i] == SextetAt(b, 4 * g + i);
  }

  lemma DecodedEncodedAt(b: seq<Byte>, j: nat)
    requires j < |b|
    ensures |EncodedSextets(b)| * 3 / 4 == |b| && Decoded(EncodedSextets(b))[j] == b[j]
  {
    hide First, Second, Third, EncodedSextets;
    var g := j / 3;
    var ds := EncodedSextets(b);
    assert |ds| * 3 / 4 == |b|;
    assert Decoded(ds)[j] == ByteAt(ds, j);
    Reassembled(InputByte(b, 3 * g), InputByte(b, 3 * g + 1));
    SextetOf(b, g, 1);
    match j % 3
    case 0 =>
      SextetOf(b, g, 0);
    case 1 =>
      SextetOf(b, g, 2);
    case _ =>
      SextetOf(b, g, 2);
      SextetOf(b, g, 3);
  }

  lemma DecodedEncoded(b: seq<Byte>)
    ensures Decoded(EncodedSextets(b)) == b
  {
    hide Decoded, EncodedSextets;
    assert |EncodedSextets(b)| * 3 / 4 == |b|;
    forall j | 0 <= j < |b|
      ensures Decoded(EncodedSextets(b))[j] == b[j]
    {
      DecodedEncodedAt(b, j);
    }
  }

  lemma PaddingIgnored()
    ensures Sextets([PAD]) == [] && Sextets([PAD, PAD]) == []
  {
    assert [PAD, PAD][..1] == [PAD];
  }

  /** Decoding undoes the encoding of every byte string, padded or not. */
  lemma RoundTrip(b: seq<Byte>, padded: bool)
    ensures Decoded(Sextets(Encode(b, padded))) == b
  {
    hide Decoded, EncodedSextets, Text, Sextets;
    var t := Text(EncodedSextets(b));
    SextetsOfText(EncodedSextets(b));
    DecodedEncoded(b);
    SextetsConcat(t, [PAD]);
    SextetsConcat(t, [PAD, PAD]);
    assert t + [] == t;
    assert EncodedSextets(b) + [] == EncodedSextets(b);
    PaddingIgnored();
  }

  /** Characters outside the alphabet may stand anywhere: removing one changes nothing. */
  lemma OtherCharactersIgnored(a: seq<Byte>, c: Byte, b: seq<Byte>)
    requires !InAlphabet(c)
    ensures Decoded(Sextets(a + [c] + b)) == Decoded(Sextets(a + b))
  {
    hide Decoded;
    SextetsConcat(a + [c], b);
    SextetsConcat(a, [c]);
    SextetsConcat(a, b);
    assert Sextets([c]) == [];
    assert Sextets(a) + [] == Sextets(a);
  }

  // ---- the number decoded

  /** What the bits not yet written out count: 0, 6, 4 or 2 of them after 0, 1, 2 or 3 sextets beyond a group. */
  function Left(k: nat): (w: nat)
    ensures w > 0
  {
    if k % 4 == 0 then 1 else if k % 4 == 1 then 64 else if k % 4 == 2 then 16 else 4
  }

  lemma ValueOfMore(b: seq<Byte>, x: Byte)
    ensures Hex.Value(b + [x]) == Hex.Value(b) * 256 + x
  {
    assert (b + [x])[..|b|] == b;
  }

  /** The byte that a sextet completes, when `k` sextets came before it and `u` is the number they all spell. */
  function Completed(u: nat, k: nat): Byte {
    if k % 4 == 1 then u / 16 % 256 else if k % 4 == 2 then u / 4 % 256 else u % 256
  }

  lemma NextMod(k: nat)
    ensures (k + 1) % 4 == if k % 4 == 3 then 0 else k % 4 + 1
  {
  }

  /** One more sextet, in numbers. */
  lemma NextByte(u: nat, d: Sextet, k: nat)
    ensures (u * 64 + d) / Left(k + 1) ==
      if k % 4 == 0 then u / Left(k) else u / Left(k) * 256 + Completed(u * 64 + d, k)
  {
    NextMod(k);
    hide Completed;
    if k % 4 == 0 {
      ModOf(64, u, d);
    } else if k % 4 == 1 {
      Second4(u, d);
    } else if k % 4 == 2 {
      Second2(u, d);
    } else {
      Second0(u, d);
    }
    CompletedIs(u * 64 + d, k);
  }

  lemma CompletedIs(u: nat, k: nat)
    ensures k % 4 == 1 ==> Completed(u, k) == u / 16 % 256
    ensures k % 4 == 2 ==> Completed(u, k) == u / 4 % 256
    ensures k % 4 == 3 ==> Completed(u, k) == u % 256
  {
  }

  lemma Second4(u: nat, d: Sextet)
    ensures (u * 64 + d) / 16 == u / 64 * 256 + (u * 64 + d) / 16 % 256
  {
    ModOf(16, u * 4 + d / 16, d % 16);
    ModOf(256, u / 64, u % 64 * 4 + d / 16);
  }

  lemma Second2(u: nat, d: Sextet)
    ensures (u * 64 + d) / 4 == u / 16 * 256 + (u * 64 + d) / 4 % 256
  {
    ModOf(4, u * 16 + d / 4, d % 4);
    ModOf(256, u / 16, u % 16 * 16 + d / 4);
  }

  lemma Second0(u: nat, d: Sextet)
    ensures u * 64 + d == u / 4 * 256 + (u * 64 + d) % 256
  {
    ModOf(256, u / 4, u % 4 * 64 + d);
  }

  /**
   The bytes decoded spell, highest first, the number the sextets spell, without the bits that
   do not fill a byte.
   */
  lemma {:induction false} DecodedValue(ds: seq<Sextet>)
    ensures Hex.Value(Decoded(ds)) == Unbounded(ds) / Left(|ds|)
  {
    hide Decoded, Hex.Value, Left, Completed, Unbounded;
    if ds == [] {
      NothingSpelled();
    } else {
      var front, d := ds[..|ds| - 1], ds[|ds| - 1];
      assert ds == front + [d];
      DecodedValue(front);
      NextUnbounded(front, d);
      NextByte(Unbounded(front), d, |front|);
      NextDecoded(front, d);
      assert |ds| == |front| + 1;
      if |front| % 4 == 0 {
        assert Decoded(front) + [] == Decoded(front);
      } else {
        ValueOfMore(Decoded(front), Completed(Unbounded(ds), |front|));
      }
    }
  }

  lemma NothingSpelled()
    ensures Hex.Value(Decoded([])) == 0 && Unbounded([]) == 0 && Left(0) == 1
  {
    NothingYet();
  }

  lemma NextDecoded(front: seq<Sextet>, d: Sextet)
    ensures Decoded(front + [d]) ==
      Decoded(front) + (if |front| % 4 == 0 then [] else [Completed(Unbounded(front + [d]), |front|)])
  {
    hide Decoded, Unbounded, Int32, BitsAfter, Shr, Completed;
    var ds := front + [d];
    OneMore(front, d);
    PushBits(|front|);
    if |front| % 4 != 0 {
      NextMod(|front|);
      PushedByte(ds);
      CompletedShift(Unbounded(ds), |front|);
    }
  }

  lemma PushBits(k: nat)
    ensures BitsAfter(k) + 6 == if k % 4 == 0 then -2 else if k % 4 == 1 then 4 else if k % 4 == 2 then 2 else 0
  {
    hide BitsAfter;
    NextMod(k);
    BitsAtPush(k + 1);
  }

  lemma CompletedShift(u: nat, k: nat)
    requires k % 4 != 0
    ensures Completed(u, k) == Shr(u, if k % 4 == 1 then 4 else if k % 4 == 2 then 2 else 0) % 256
  {
  }
}
