/**
 What the sponge state is after part of a message: the blocks absorbed so far, with the
 whole words of the current block already combined into the state.
 */
module Absorption {
  import opened Arithmetic
  import opened Bits
  import F = Fips202

  /** Up to eight bytes as one word, first byte lowest. */
  function WordOf(t: seq<Byte>): Lane
    requires |t| <= 8
  {
    BytesToBits(t) + Zeros(64 - 8 * |t|)
  }

  /** `saved |= (uint64_t) b << (byteIndex * 8)` appends a byte. */
  lemma StoreByte(t: seq<Byte>, b: Byte)
    requires |t| < 8
    ensures Or(WordOf(t), Shl(LaneOf(b), 8 * |t|)) == WordOf(t + [b])
  {
    BytePow();
    Widen(b, 8, 56);
    assert BytesToBits(t + [b]) == BytesToBits(t) + ByteBits(b) by {
      assert (t + [b])[..|t|] == t;
    }
  }

  /** `8 * words` message bytes, split where the last whole word ends. */
  function Head(m: seq<Byte>): (h: seq<Byte>)
    ensures |h| == |m| / 8 * 8
  {
    m[..|m| / 8 * 8]
  }

  function HeadBits(m: seq<Byte>): (P: seq<bool>)
    ensures |P| == 64 * (|m| / 8)
  {
    BytesToBits(Head(m))
  }

  function Tail(m: seq<Byte>): (t: seq<Byte>)
    ensures |t| == |m| % 8
  {
    m[|m| / 8 * 8..]
  }

  /** Bytes that do not complete a word only join the tail. */
  lemma TailGrows(m: seq<Byte>, b: seq<Byte>)
    requires |m| % 8 + |b| < 8
    ensures HeadBits(m + b) == HeadBits(m) && Tail(m + b) == Tail(m) + b
    ensures |m + b| / 8 == |m| / 8 && |m + b| % 8 == |m| % 8 + |b|
  {
    assert Head(m + b) == Head(m);
  }

  lemma WordCompletes(m: seq<Byte>, b: seq<Byte>)
    requires |m| % 8 + |b| == 8
    ensures HeadBits(m + b) == HeadBits(m) + WordOf(Tail(m) + b) && Tail(m + b) == []
    ensures |m + b| / 8 == |m| / 8 + 1 && |m + b| % 8 == 0
  {
    assert Head(m + b) == Head(m) + (Tail(m) + b);
    BytesToBitsConcat(Head(m), Tail(m) + b);
  }

  lemma TailEmpty(m: seq<Byte>)
    requires |m| % 8 == 0
    ensures Tail(m) == []
  {
  }

  lemma EmptyWord()
    ensures WordOf([]) == Zeros(64)
  {
  }

  /** The eight-way `|` that reads a word straight from the input. */
  function ReadWord(buf: seq<Byte>, p: nat): (t: Lane)
    requires p + 8 <= |buf|
    ensures t == WordOf(buf[p..p + 8])
  {
    ReadWordIs(buf[p..p + 8]);
    Or(Or(Or(Or(Or(Or(Or(LaneOf(buf[p]),
      Shl(LaneOf(buf[p + 1]), 8 * 1)),
      Shl(LaneOf(buf[p + 2]), 8 * 2)),
      Shl(LaneOf(buf[p + 3]), 8 * 3)),
      Shl(LaneOf(buf[p + 4]), 8 * 4)),
      Shl(LaneOf(buf[p + 5]), 8 * 5)),
      Shl(LaneOf(buf[p + 6]), 8 * 6)),
      Shl(LaneOf(buf[p + 7]), 8 * 7))
  }

  lemma FirstByte(b: Byte)
    ensures LaneOf(b) == WordOf([b])
  {
    BytePow();
    Widen(b, 8, 56);
    assert BytesToBits([b]) == BytesToBits([]) + ByteBits(b);
  }

  lemma ReadWordIs(w: seq<Byte>)
    requires |w| == 8
    ensures WordOf(w) == Or(Or(Or(Or(Or(Or(Or(LaneOf(w[0]),
      Shl(LaneOf(w[1]), 8)), Shl(LaneOf(w[2]), 16)), Shl(LaneOf(w[3]), 24)), Shl(LaneOf(w[4]), 32)),
      Shl(LaneOf(w[5]), 40)), Shl(LaneOf(w[6]), 48)), Shl(LaneOf(w[7]), 56))
  {
    hide WordOf, Or, Shl, LaneOf;
    FirstByte(w[0]);
    assert [w[0]] == w[..1];
    StoreNext(w, 1);
    StoreNext(w, 2);
    StoreNext(w, 3);
    StoreNext(w, 4);
    StoreNext(w, 5);
    StoreNext(w, 6);
    StoreNext(w, 7);
    assert w[..8] == w;
  }

  lemma StoreNext(w: seq<Byte>, i: nat)
    requires i < |w| == 8
    ensures Or(WordOf(w[..i]), Shl(LaneOf(w[i]), 8 * i)) == WordOf(w[..i + 1])
  {
    hide WordOf, Or, Shl, LaneOf;
    StoreByte(w[..i], w[i]);
    assert w[..i] + [w[i]] == w[..i + 1];
  }

  /** Combines a word with the bits of a state from `64 * i` on. */
  function XorWord(S: F.State, i: nat, t: Lane): F.State
    requires i < 25
  {
    seq(1600, k requires 0 <= k < 1600 => if 64 * i <= k < 64 * i + 64 then S[k] != t[k - 64 * i] else S[k])
  }

  /** The words of whole blocks among `w` words. */
  function Blocks(R: nat, w: nat): (n: nat)
    requires 0 < R
    ensures n <= w && w - n == w % R && 64 * n % (64 * R) == 0
  {
    BlocksFacts(R, w);
    w / R * R
  }

  lemma BlocksFacts(R: nat, w: nat)
    requires 0 < R
    ensures var n := w / R * R; n <= w && w - n == w % R && 64 * n % (64 * R) == 0
  {
    var n := w / R * R;
    assert 64 * n == (w / R) * (64 * R);
    ModOf(64 * R, w / R, 0);
  }

  /** The state once the words of `P` have been absorbed at `R` words a block. */
  function Mid(R: nat, P: seq<bool>): F.State
    requires 0 < R <= 25 && |P| % 64 == 0
  {
    var n := 64 * Blocks(R, |P| / 64);
    F.XorInto(F.Absorb(64 * R, P[..n]), P[n..])
  }

  lemma NextWord(R: nat, w: nat)
    requires 0 < R
    ensures w % R + 1 < R ==> (w + 1) % R == w % R + 1 && Blocks(R, w + 1) == Blocks(R, w)
    ensures w % R + 1 == R ==> (w + 1) % R == 0 && Blocks(R, w + 1) == Blocks(R, w) + R == w + 1
  {
    var q, a := w / R, w % R;
    assert w == q * R + a;
    if a + 1 < R {
      ModOf(R, q, a + 1);
    } else {
      assert w + 1 == (q + 1) * R;
      ModOf(R, q + 1, 0);
    }
  }

  /** Absorbing one more word touches one word of the state, and permutes when the block is full. */
  lemma AbsorbWord(R: nat, P: seq<bool>, t: Lane)
    requires 0 < R <= 25 && |P| % 64 == 0
    ensures var i := |P| / 64 % R;
      Mid(R, P + t) == if i + 1 == R then F.KeccakP(XorWord(Mid(R, P), i, t)) else XorWord(Mid(R, P), i, t)
  {
    hide F.KeccakP, F.Absorb;
    var w := |P| / 64;
    var n := 64 * Blocks(R, w);
    NextWord(R, w);
    var A := F.Absorb(64 * R, P[..n]);
    assert F.XorInto(A, (P + t)[n..]) == XorWord(Mid(R, P), w % R, t);
    if w % R + 1 == R {
      LastBlockOf(R, P + t, n);
      assert (P + t)[..n] == P[..n];
      assert (P + t)[..n + 64 * R] == P + t;
      assert F.XorInto(F.Absorb(64 * R, P + t), []) == F.Absorb(64 * R, P + t);
    } else {
      assert (P + t)[..n] == P[..n];
    }
  }

  lemma LastBlockOf(R: nat, Q: seq<bool>, n: nat)
    requires 0 < R <= 25 && |Q| == n + 64 * R && n % (64 * R) == 0 && |Q| % (64 * R) == 0
    ensures F.Absorb(64 * R, Q) == F.KeccakP(F.XorInto(F.Absorb(64 * R, Q[..n]), Q[n..]))
  {
    hide F.KeccakP, F.XorInto;
  }

  // ---- the padded last block

  /** The last bit of the padding, as the word 0x8000000000000000. */
  function TopBit(): Lane {
    Zeros(63) + [true]
  }

  /** The domain suffix and the first bit of the padding, as the low bits of a word. */
  function SuffixWord(suffix: seq<bool>): Lane
    requires |suffix| <= 2
  {
    suffix + [true] + Zeros(63 - |suffix|)
  }

  /** The state `sha3_Finalize` hands to the permutation. */
  function Closed(R: nat, m: seq<Byte>, suffix: seq<bool>): F.State
    requires 0 < R <= 25 && |suffix| <= 2
  {
    var t := Xor(WordOf(Tail(m)), Shl(SuffixWord(suffix), 8 * (|m| % 8)));
    XorWord(XorWord(Mid(R, HeadBits(m)), |m| / 8 % R, t), R - 1, TopBit())
  }

  /** The message, its suffix and the padding. */
  function Padded(R: nat, m: seq<Byte>, suffix: seq<bool>): (P: seq<bool>)
    requires 0 < R
    ensures |P| % (64 * R) == 0
  {
    var N := BytesToBits(m) + suffix;
    N + F.Pad101(64 * R, |N|)
  }

  lemma PadOf(r: nat, q: nat, a: nat)
    requires a + 2 <= r
    ensures F.Pad101(r, q * r + a) == [true] + Zeros(r - 2 - a) + [true]
  {
    ModOf(r, q, a);
    ModOf(r, 1, r - 2 - a);
    assert 2 * r - 2 - a == 1 * r + (r - 2 - a);
  }

  /** How many bits of the message the last block holds. */
  function Used(R: nat, m: seq<Byte>): (u: nat)
    requires 0 < R
    ensures u + 8 <= 64 * R && 64 * Blocks(R, |m| / 8) + u == 8 * |m|
  {
    64 * (|m| / 8 % R) + 8 * (|m| % 8)
  }

  lemma PaddedShape(R: nat, m: seq<Byte>, suffix: seq<bool>)
    requires 0 < R && |suffix| <= 2
    ensures var u := Used(R, m) + |suffix|;
      Padded(R, m, suffix) == BytesToBits(m) + suffix + ([true] + Zeros(64 * R - 2 - u) + [true])
  {
    hide BytesToBits, F.Pad101;
    var q := |m| / 8 / R;
    assert 64 * Blocks(R, |m| / 8) == q * (64 * R);
    PadOf(64 * R, q, Used(R, m) + |suffix|);
  }

  /** Bit `k` of the last block: message words, message bytes, suffix, and the padding's two ones. */
  function LastBit(R: nat, m: seq<Byte>, suffix: seq<bool>, k: nat): bool
    requires 0 < R && |suffix| <= 2 && k < 64 * R
  {
    var n, i, u := 64 * Blocks(R, |m| / 8), |m| / 8 % R, Used(R, m);
    if k < 64 * i then HeadBits(m)[n + k]
    else if k < u then BytesToBits(Tail(m))[k - 64 * i]
    else if k < u + |suffix| then suffix[k - u]
    else k == u + |suffix| || k == 64 * R - 1
  }

  lemma PaddedBit(R: nat, m: seq<Byte>, suffix: seq<bool>, k: nat)
    requires 0 < R && |suffix| <= 2 && k < 64 * R
    ensures var n := 64 * Blocks(R, |m| / 8);
      |Padded(R, m, suffix)| == n + 64 * R && Padded(R, m, suffix)[n + k] == LastBit(R, m, suffix, k)
  {
    hide BytesToBits, F.Pad101, Padded;
    PaddedShape(R, m, suffix);
    assert m == Head(m) + Tail(m);
    BytesToBitsConcat(Head(m), Tail(m));
  }

  lemma ClosingWordBit(m: seq<Byte>, suffix: seq<bool>, z: nat)
    requires |suffix| <= 2 && z < 64
    ensures var b := 8 * (|m| % 8);
      Xor(WordOf(Tail(m)), Shl(SuffixWord(suffix), b))[z] ==
      if z < b then BytesToBits(Tail(m))[z] else if z < b + |suffix| then suffix[z - b] else z == b + |suffix|
  {
    hide BytesToBits;
  }

  lemma XorWordAt(S: F.State, i: nat, t: Lane, k: nat)
    requires i < 25 && k < 1600
    ensures XorWord(S, i, t)[k] == if 64 * i <= k < 64 * i + 64 then S[k] != t[k - 64 * i] else S[k]
  {
  }

  lemma MidAt(R: nat, P: seq<bool>, k: nat)
    requires 0 < R <= 25 && |P| % 64 == 0 && k < 1600
    ensures var n := 64 * Blocks(R, |P| / 64);
      Mid(R, P)[k] == (F.Absorb(64 * R, P[..n])[k] != (k < 64 * (|P| / 64 % R) && P[n + k]))
  {
    hide F.Absorb;
  }

  lemma ClosedBit(R: nat, m: seq<Byte>, suffix: seq<bool>, k: nat)
    requires 0 < R <= 25 && |suffix| <= 2 && k < 1600
    ensures var n := 64 * Blocks(R, |m| / 8);
      var A := F.Absorb(64 * R, HeadBits(m)[..n]);
      Closed(R, m, suffix)[k] == if k < 64 * R then A[k] != LastBit(R, m, suffix, k) else A[k]
  {
    hide F.Absorb, BytesToBits, Xor, Shl, WordOf, SuffixWord, XorWord, Mid, Blocks, Head, Tail;
    var i := |m| / 8 % R;
    var P := HeadBits(m);
    var t := Xor(WordOf(Tail(m)), Shl(SuffixWord(suffix), 8 * (|m| % 8)));
    assert |P| / 64 == |m| / 8;
    MidAt(R, P, k);
    XorWordAt(Mid(R, P), i, t, k);
    XorWordAt(XorWord(Mid(R, P), i, t), R - 1, TopBit(), k);
    if 64 * i <= k < 64 * i + 64 {
      ClosingWordBit(m, suffix, k - 64 * i);
    }
  }

  lemma LastBlockBit(R: nat, m: seq<Byte>, suffix: seq<bool>, k: nat)
    requires 0 < R <= 25 && |suffix| <= 2 && k < 1600
    requires var n := 64 * Blocks(R, |m| / 8); n <= |Padded(R, m, suffix)| == n + 64 * R
    ensures var n := 64 * Blocks(R, |m| / 8);
      Closed(R, m, suffix)[k] ==
      F.XorInto(F.Absorb(64 * R, HeadBits(m)[..n]), Padded(R, m, suffix)[n..])[k]
  {
    hide F.Absorb, BytesToBits, Closed, Padded, LastBit, Used;
    ClosedBit(R, m, suffix, k);
    if k < 64 * R {
      PaddedBit(R, m, suffix, k);
    }
  }

  lemma FinalBlock(R: nat, m: seq<Byte>, suffix: seq<bool>)
    requires 0 < R <= 25 && |suffix| <= 2
    ensures F.KeccakP(Closed(R, m, suffix)) == F.Absorb(64 * R, Padded(R, m, suffix))
  {
    hide F.KeccakP, F.Absorb, Closed, Padded, F.XorInto, BytesToBits;
    var n := 64 * Blocks(R, |m| / 8);
    var Q := Padded(R, m, suffix);
    PaddedShape(R, m, suffix);
    PaddedPrefix(R, m, suffix);
    var T := F.XorInto(F.Absorb(64 * R, HeadBits(m)[..n]), Q[n..]);
    forall k | 0 <= k < 1600
      ensures Closed(R, m, suffix)[k] == T[k]
    {
      LastBlockBit(R, m, suffix, k);
    }
    assert Closed(R, m, suffix) == T;
    LastBlockOf(R, Q, n);
  }

  lemma PaddedPrefix(R: nat, m: seq<Byte>, suffix: seq<bool>)
    requires 0 < R <= 25 && |suffix| <= 2
    ensures var n := 64 * Blocks(R, |m| / 8);
      n <= |HeadBits(m)| && |Padded(R, m, suffix)| % (64 * R) == 0 && |Padded(R, m, suffix)| == n + 64 * R
      && Padded(R, m, suffix)[..n] == HeadBits(m)[..n]
  {
    hide BytesToBits, F.Pad101;
    PaddedShape(R, m, suffix);
    assert m == Head(m) + Tail(m);
    BytesToBitsConcat(Head(m), Tail(m));
  }
}
