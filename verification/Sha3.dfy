/**
 The incremental hash of src/signing/sha3.c: `sha3_Init`, `sha3_SetFlags`, `sha3_Update`,
 `sha3_Finalize` and `sha3_HashBuffer`.
 */
module Sha3 {
  import opened Bits
  import F = Fips202
  import K = KeccakF
  import A = Absorption

  datatype Return = Ok | BadParams

  const USE_KECCAK_FLAG: nat := 0x80000000
  const FLAGS_NONE: nat := 0
  const FLAGS_KECCAK: nat := 1

  /** SHA3_CW: the capacity without the flag kept in the top bit of the 32-bit word. */
  function Cw(capacityWords: nat): nat {
    capacityWords % USE_KECCAK_FLAG
  }

  predicate Supported(bitSize: nat) {
    bitSize == 256 || bitSize == 384 || bitSize == 512
  }

  lemma Capacity(bitSize: nat)
    requires Supported(bitSize)
    ensures 64 * (bitSize / 32) == 2 * bitSize && bitSize / 32 % 0x8000_0000 == bitSize / 32
    ensures (bitSize / 32 + 0x8000_0000) % 0x8000_0000 == bitSize / 32
    ensures 2 * bitSize / 64 == bitSize / 32 == Cw(bitSize / 32)
    ensures bitSize / 32 == 8 || bitSize / 32 == 12 || bitSize / 32 == 16
  {
  }

  /** Section 6.1 of FIPS 202 appends 01 to the message; plain Keccak appends nothing. */
  function Suffix(keccak: bool): (r: seq<bool>)
    ensures |r| <= 2
  {
    if keccak then [] else [false, true]
  }

  /** The hash of `m` in the words of the standard. */
  function Hash(bitSize: nat, keccak: bool, m: seq<Byte>): (r: seq<bool>)
    requires Supported(bitSize)
    ensures |r| == bitSize
  {
    F.Sponge(1600 - 2 * bitSize, BytesToBits(m) + Suffix(keccak), bitSize)
  }

  class Context {
    var saved: Lane
    const s: array<Lane>
    var byteIndex: nat
    var wordIndex: nat
    var capacityWords: nat

    /** Everything passed to `Update` since `Init`. */
    ghost var message: seq<Byte>

    constructor ()
      ensures fresh(s) && s.Length == 25
    {
      s := new Lane[25](i => Zeros(64));
      saved := Zeros(64);
      byteIndex, wordIndex, capacityWords := 0, 0, 0;
      message := [];
    }

    predicate UsesKeccak()
      reads this`capacityWords
    {
      capacityWords >= USE_KECCAK_FLAG
    }

    function Rate(): nat
      requires Cw(capacityWords) <= 25
      reads this`capacityWords
    {
      25 - Cw(capacityWords)
    }

    /**
     The context is a function of the message: the bytes of the unfinished word in `saved`,
     the whole words in the sponge, and the two indices.
     */
    ghost predicate Valid()
      reads this, s
    {
      && s.Length == 25
      && (Cw(capacityWords) == 8 || Cw(capacityWords) == 12 || Cw(capacityWords) == 16)
      && capacityWords < 2 * USE_KECCAK_FLAG
      && byteIndex == |message| % 8
      && saved == A.WordOf(A.Tail(message))
      && Absorbed(A.HeadBits(message))
    }

    /** The whole words `P` are in the sponge. */
    ghost predicate Absorbed(P: seq<bool>)
      reads this`wordIndex, this`capacityWords, s
    {
      && s.Length == 25 && Cw(capacityWords) < 25 && |P| % 64 == 0
      && wordIndex == |P| / 64 % Rate() && K.Flatten(s[..]) == A.Mid(Rate(), P)
    }

    method Clear()
      modifies s
      ensures forall i :: 0 <= i < s.Length ==> s[i] == Zeros(64)
    {
      hide Zeros;
      forall i | 0 <= i < s.Length {
        s[i] := Zeros(64);
      }
    }

    method Init(bitSize: nat) returns (ret: Return)
      requires s.Length == 25
      modifies this, s
      ensures ret.Ok? <==> bitSize == 256 || bitSize == 384 || bitSize == 512
      ensures ret.Ok? ==> Valid() && message == [] && capacityWords == bitSize / 32
      ensures ret.BadParams? ==> unchanged(this) && unchanged(s)
    {
      if bitSize != 256 && bitSize != 384 && bitSize != 512 {
        return BadParams;
      }
      hide A.HeadBits, A.Tail, A.WordOf, Zeros, Cw, Absorbed;
      Clear();
      saved := Zeros(64);
      byteIndex, wordIndex := 0, 0;
      capacityWords := 2 * bitSize / (8 * 8);
      message := [];
      Capacity(bitSize);
      NothingAbsorbed();
      return Ok;
    }

    lemma NothingAbsorbed()
      requires s.Length == 25 && (forall i :: 0 <= i < 25 ==> s[i] == Zeros(64))
      requires wordIndex == 0 && Cw(capacityWords) < 25
      ensures Absorbed(A.HeadBits([])) && A.WordOf(A.Tail([])) == Zeros(64)
    {
      hide A.Mid, A.Tail, A.WordOf, K.Flatten, Zeros, Cw;
      EmptySponge(Rate(), s[..]);
      assert 0 % Rate() == 0;
    }

    method SetFlags(flags: nat) returns (masked: nat)
      requires Valid()
      modifies this`capacityWords
      ensures Valid() && masked == flags % 2
      ensures Rate() == old(Rate()) && UsesKeccak() == (old(UsesKeccak()) || flags % 2 == 1)
      ensures capacityWords == old(capacityWords) +
        if flags % 2 == 1 && old(capacityWords) < 0x8000_0000 then 0x8000_0000 else 0
    {
      hide A.WordOf, A.Mid, A.Blocks, A.HeadBits, A.Tail, K.Flatten;
      masked := flags % 2;
      if masked == FLAGS_KECCAK && capacityWords < USE_KECCAK_FLAG {
        capacityWords := capacityWords + USE_KECCAK_FLAG;
      }
    }

    /** The loop that collects bytes of an unfinished word. */
    method Store(buf: seq<Byte>, from: nat, count: nat, ghost t: seq<Byte>)
      requires from + count <= |buf| && |t| == byteIndex && byteIndex + count <= 8 && saved == A.WordOf(t)
      modifies this`saved, this`byteIndex
      ensures byteIndex == old(byteIndex) + count && saved == A.WordOf(t + buf[from..from + count])
    {
      hide A.WordOf, Or, Shl, LaneOf;
      var p, left := from, count;
      assert t + buf[from..from] == t;
      while left > 0
        invariant from <= p <= from + count && left == from + count - p
        invariant byteIndex == |t| + (p - from)
        invariant saved == A.WordOf(t + buf[from..p])
      {
        left := left - 1;
        A.StoreByte(t + buf[from..p], buf[p]);
        assert t + buf[from..p] + [buf[p]] == t + buf[from..p + 1];
        saved := Or(saved, Shl(LaneOf(buf[p]), byteIndex * 8));
        p, byteIndex := p + 1, byteIndex + 1;
      }
    }

    /** `s[wordIndex] ^= t`, with the permutation when that fills the block. */
    method AbsorbWord(t: Lane, ghost P: seq<bool>)
      requires Absorbed(P)
      modifies this`wordIndex, s
      ensures Absorbed(P + t)
    {
      hide A.Mid, A.XorWord, A.Blocks, K.Flatten, F.KeccakP, Xor;
      A.AbsorbWord(Rate(), P, t);
      A.NextWord(Rate(), |P| / 64);
      ghost var was := s[..];
      s[wordIndex] := Xor(s[wordIndex], t);
      XorLane(was, wordIndex, t);
      assert s[..] == was[wordIndex := Xor(was[wordIndex], t)];
      wordIndex := wordIndex + 1;
      if wordIndex == 25 - Cw(capacityWords) {
        K.Permute(s);
        wordIndex := 0;
      }
    }

    /** Collects the `n` bytes that complete the unfinished word and absorbs it. */
    method CompleteWord(buf: seq<Byte>, n: nat)
      requires Valid() && byteIndex + n == 8 && n <= |buf|
      modifies this, s
      ensures Valid() && byteIndex == 0 && message == old(message) + buf[..n] && capacityWords == old(capacityWords)
    {
      hide A.WordOf, A.HeadBits, A.Tail, Absorbed;
      A.WordCompletes(message, buf[..n]);
      Store(buf, 0, n, A.Tail(message));
      AbsorbWord(saved, A.HeadBits(message));
      byteIndex, saved := 0, Zeros(64);
      message := message + buf[..n];
      A.EmptyWord();
    }

    /** Absorbs one word read straight from the input. */
    method AbsorbNext(buf: seq<Byte>, q: nat)
      requires Valid() && byteIndex == 0 && q + 8 <= |buf|
      modifies this, s
      ensures Valid() && byteIndex == 0 && capacityWords == old(capacityWords)
      ensures message == old(message) + buf[q..q + 8]
    {
      hide A.WordOf, A.HeadBits, A.Tail, Absorbed;
      A.WordCompletes(message, buf[q..q + 8]);
      A.TailEmpty(message);
      var t := A.ReadWord(buf, q);
      assert A.Tail(message) + buf[q..q + 8] == buf[q..q + 8];
      AbsorbWord(t, A.HeadBits(message));
      message := message + buf[q..q + 8];
      A.EmptyWord();
    }

    method AbsorbWords(buf: seq<Byte>, p: nat, words: nat)
      requires Valid() && byteIndex == 0 && p + 8 * words <= |buf|
      modifies this, s
      ensures Valid() && byteIndex == 0 && capacityWords == old(capacityWords)
      ensures message == old(message) + buf[p..p + 8 * words]
    {
      hide Valid;
      for i := 0 to words
        invariant capacityWords == old(capacityWords)
        invariant Valid() && byteIndex == 0 && message == old(message) + buf[p..p + 8 * i]
      {
        var q := p + 8 * i;
        AbsorbNext(buf, q);
        assert buf[p..q] + buf[q..q + 8] == buf[p..q + 8];
      }
    }

    /** Stores bytes that do not complete a word. */
    method StoreRest(buf: seq<Byte>, p: nat)
      requires Valid() && p <= |buf| && byteIndex + |buf| - p < 8
      modifies this
      ensures Valid() && message == old(message) + buf[p..] && capacityWords == old(capacityWords)
    {
      hide A.WordOf, A.Mid, A.Blocks, A.HeadBits, A.Head, A.Tail, K.Flatten;
      A.TailGrows(message, buf[p..]);
      Store(buf, p, |buf| - p, A.Tail(message));
      assert buf[p..p + (|buf| - p)] == buf[p..];
      message := message + buf[p..];
    }

    method Update(buf: seq<Byte>)
      requires Valid()
      modifies this, s
      ensures Valid() && message == old(message) + buf && capacityWords == old(capacityWords)
    {
      hide Valid;
      var oldTail := (8 - byteIndex) % 8;
      WithinBounds();
      if |buf| < oldTail {
        StoreRest(buf, 0);
        assert buf[0..] == buf;
        return;
      }
      if oldTail > 0 {
        CompleteWord(buf, oldTail);
      }
      ghost var before := message;
      assert before == old(message) + buf[..oldTail];
      var words := (|buf| - oldTail) / 8;
      AbsorbWords(buf, oldTail, words);
      var p := oldTail + 8 * words;
      StoreRest(buf, p);
      assert buf[..oldTail] + buf[oldTail..p] + buf[p..] == buf;
    }

    /**
     Absorbs the padding and the last permutation; `sb` is the state as bytes. The original
     writes these bytes over the words themselves, which changes nothing on a little-endian
     machine: there the words hold the same bits, and the other fields stay.
     */
    method Finalize() returns (sb: array<Byte>)
      requires Valid()
      modifies s
      ensures fresh(sb) && sb.Length == 200
      ensures
        var r := 1600 - 64 * (capacityWords % 0x8000_0000);
        var N := BytesToBits(message) + if capacityWords >= 0x8000_0000 then [] else [false, true];
        BytesToBits(sb[..]) == F.Absorb(r, N + F.Pad101(r, |N|))
      ensures K.Flatten(s[..]) == BytesToBits(sb[..])
    {
      hide A.WordOf, A.Mid, A.Blocks, A.HeadBits, A.Tail, A.Padded, A.XorWord, A.SuffixWord, A.TopBit;
      hide K.Flatten, F.KeccakP, F.Absorb, Xor, Shl, LaneOf, LowByte;
      var t: Lane;
      SuffixWords();
      if UsesKeccak() {
        t := Shl(LaneOf(1), byteIndex * 8);
      } else {
        t := Shl(LaneOf(0x02 + 0x04), byteIndex * 8);
      }
      A.FinalBlock(Rate(), message, Suffix(UsesKeccak()));
      Squash(s, wordIndex, Xor(saved, t));
      Squash(s, 25 - Cw(capacityWords) - 1, LaneOf(0x8000000000000000));
      K.Permute(s);
      sb := ToBytes(s);
      PaddedIs(Rate(), message, UsesKeccak());
    }

    /** The bounds the original's assertions state, and that `saved` holds nothing but its bytes. */
    lemma WithinBounds()
      requires Valid()
      ensures byteIndex < 8 && wordIndex < Rate() && forall z :: 8 * byteIndex <= z < 64 ==> !saved[z]
    {
      hide BytesToBits;
    }
  }

  /** What is absorbed, spelled out: 01 follows the message for SHA3 and nothing does for Keccak. */
  lemma PaddedIs(R: nat, m: seq<Byte>, keccak: bool)
    requires 0 < R
    ensures var N := BytesToBits(m) + if keccak then [] else [false, true];
      A.Padded(R, m, Suffix(keccak)) == N + F.Pad101(64 * R, |N|)
  {
    hide F.Pad101;
  }

  /** `s[i] ^= t` */
  method Squash(s: array<Lane>, i: nat, t: Lane)
    requires s.Length == 25 && i < 25
    modifies s
    ensures K.Flatten(s[..]) == A.XorWord(old(K.Flatten(s[..])), i, t)
  {
    hide K.Flatten, A.XorWord, Xor;
    ghost var was := s[..];
    s[i] := Xor(s[i], t);
    XorLane(was, i, t);
    assert s[..] == was[i := Xor(was[i], t)];
  }

  /** The cast to `uint8_t`. */
  function LowByte(w: Lane): Byte {
    ByteOfBits(w[..8])
  }

  /** The cast to `uint32_t`. */
  function Low32(w: Lane): Lane {
    w[..32] + Zeros(32)
  }

  lemma LowByteBits(w: Lane, k: nat)
    requires k < 8
    ensures ByteBits(LowByte(Shr(w, 8 * k))) == w[8 * k..8 * k + 8]
  {
    var r := Shr(w, 8 * k);
    assert r[..8] == w[8 * k..8 * k + 8] by {
      assert forall z :: 0 <= z < 8 ==> r[..8][z] == w[8 * k..8 * k + 8][z];
    }
  }

  lemma Halves(w: Lane)
    ensures Low32(w)[..32] == w[..32] && Low32(Shr(Shr(w, 16), 16))[..32] == w[32..]
  {
    var v := Shr(Shr(w, 16), 16);
    assert forall z :: 0 <= z < 32 ==> v[z] == Shr(w, 16)[z + 16] == w[z + 32];
    assert v[..32] == w[32..];
    assert Low32(v)[..32] == v[..32];
  }

  lemma ByteOfWord(w: Lane, k: nat)
    requires k < 4
    ensures ByteBits(LowByte(Shr(Low32(w), 8 * k))) == w[8 * k..8 * k + 8]
    ensures ByteBits(LowByte(Shr(Low32(Shr(Shr(w, 16), 16)), 8 * k))) == w[32 + 8 * k..40 + 8 * k]
  {
    hide LowByte, Shr, Low32;
    LowByteBits(Low32(w), k);
    LowByteBits(Low32(Shr(Shr(w, 16), 16)), k);
    Halves(w);
    assert Low32(w)[..32][8 * k..8 * k + 8] == w[..32][8 * k..8 * k + 8];
    assert Low32(Shr(Shr(w, 16), 16))[..32][8 * k..8 * k + 8] == w[32..][8 * k..8 * k + 8];
  }

  /** The bytes of `w`, low byte first. */
  function BytesOfWord(w: Lane): (r: seq<Byte>)
    ensures |r| == 8
  {
    var t2 := Shr(Shr(w, 16), 16);
    [LowByte(Low32(w)), LowByte(Shr(Low32(w), 8)), LowByte(Shr(Low32(w), 16)), LowByte(Shr(Low32(w), 24)),
     LowByte(Low32(t2)), LowByte(Shr(Low32(t2), 8)), LowByte(Shr(Low32(t2), 16)), LowByte(Shr(Low32(t2), 24))]
  }

  lemma BytesOfWordBits(w: Lane, z: nat)
    requires z < 64
    ensures ByteBits(BytesOfWord(w)[z / 8])[z % 8] == w[z]
  {
    hide BytesOfWord;
    BytesOfWordAt(w, z / 8);
    assert w[8 * (z / 8)..8 * (z / 8) + 8][z % 8] == w[z];
  }

  lemma BytesOfWordAt(w: Lane, i: nat)
    requires i < 8
    ensures ByteBits(BytesOfWord(w)[i]) == w[8 * i..8 * i + 8]
  {
    hide LowByte, Low32, Shr, ByteBits;
    ByteOfWord(w, i % 4);
    ShrZero(Low32(w));
    ShrZero(Low32(Shr(Shr(w, 16), 16)));
  }

  lemma ShrZero(w: Lane)
    ensures Shr(w, 0) == w
  {
  }

  method PutWord(sb: array<Byte>, i: nat, w: Lane)
    requires sb.Length == 200 && i < 25
    modifies sb
    ensures sb[..] == old(sb[..8 * i]) + BytesOfWord(w) + old(sb[8 * i + 8..])
  {
    hide LowByte, Low32, Shr;
    var t1 := Low32(w);
    var t2 := Low32(Shr(Shr(w, 16), 16));
    sb[i * 8 + 0] := LowByte(t1);
    sb[i * 8 + 1] := LowByte(Shr(t1, 8));
    sb[i * 8 + 2] := LowByte(Shr(t1, 16));
    sb[i * 8 + 3] := LowByte(Shr(t1, 24));
    sb[i * 8 + 4] := LowByte(t2);
    sb[i * 8 + 5] := LowByte(Shr(t2, 8));
    sb[i * 8 + 6] := LowByte(Shr(t2, 16));
    sb[i * 8 + 7] := LowByte(Shr(t2, 24));
  }

  /** The loop that turns the 25 words into 200 bytes, whatever the byte order of the machine. */
  method ToBytes(s: array<Lane>) returns (sb: array<Byte>)
    requires s.Length == 25
    ensures fresh(sb) && sb.Length == 200 && BytesToBits(sb[..]) == K.Flatten(s[..])
  {
    hide *;
    sb := new Byte[200](i => 0);
    for i := 0 to 25
      invariant forall k :: 0 <= k < 8 * i ==> sb[k] == BytesOfWord(s[k / 8])[k % 8]
    {
      ghost var was := sb[..];
      PutWord(sb, i, s[i]);
      assert forall k :: 0 <= k < 8 * i ==> sb[k] == sb[..][k] == was[k];
      assert forall k :: 8 * i <= k < 8 * i + 8 ==> sb[k] == sb[..][k] == BytesOfWord(s[i])[k - 8 * i];
    }
    BytesAreState(sb[..], s[..]);
  }

  /** A bit position, by words and by bytes. */
  lemma Positions(k: nat)
    ensures k / 8 / 8 == k / 64 && k / 8 % 8 == k % 64 / 8 && k % 64 % 8 == k % 8 && 8 * (k / 8) + k % 8 == k
  {
  }

  lemma BytesAreState(sb: seq<Byte>, s: seq<Lane>)
    requires |sb| == 200 && |s| == 25
    requires forall k :: 0 <= k < 200 ==> sb[k] == BytesOfWord(s[k / 8])[k % 8]
    ensures BytesToBits(sb) == K.Flatten(s)
  {
    hide BytesToBits, BytesOfWord, ByteBits;
    forall k | 0 <= k < 1600
      ensures BytesToBits(sb)[k] == K.Flatten(s)[k]
    {
      BytesToBitsAt(sb, k / 8, k % 8);
      BytesOfWordBits(s[k / 64], k % 64);
      Positions(k);
    }
  }

  lemma {:induction false} PowerBits(k: nat)
    ensures BitsOf(Pow2(k), k + 1) == Zeros(k) + [true]
  {
    if k > 0 {
      PowerBits(k - 1);
      assert Zeros(k) + [true] == [false] + (Zeros(k - 1) + [true]);
    }
  }

  /** The constants of `sha3_Finalize`, as bits. */
  lemma SuffixWords()
    ensures LaneOf(1) == A.SuffixWord([]) && LaneOf(6) == A.SuffixWord([false, true])
    ensures LaneOf(0x8000000000000000) == A.TopBit()
  {
    OneAndSix();
    Pow63();
    PowerBits(63);
  }

  lemma OneAndSix()
    ensures LaneOf(1) == A.SuffixWord([]) && LaneOf(6) == A.SuffixWord([false, true])
  {
    BitsOfZero(63);
    BitsOfZero(61);
    assert BitsOf(6, 64) == [false] + ([true] + ([true] + BitsOf(0, 61)));
  }

  lemma Pow63()
    ensures Pow2(63) == 0x8000000000000000
  {
    WordPows();
    assert Pow2(64) == 2 * Pow2(63);
  }

  lemma EmptySponge(R: nat, s: seq<Lane>)
    requires 0 < R <= 25 && |s| == 25 && forall i :: 0 <= i < 25 ==> s[i] == Zeros(64)
    ensures K.Flatten(s) == A.Mid(R, A.HeadBits([])) && A.WordOf(A.Tail([])) == Zeros(64)
  {
    hide F.KeccakP;
    assert A.Head([]) == [] && A.Tail([]) == [];
    var S := A.Mid(R, []);
    assert forall k :: 0 <= k < 1600 ==> !S[k];
    assert BytesToBits([]) == [];
  }

  lemma XorLane(s: seq<Lane>, i: nat, t: Lane)
    requires |s| == 25 && i < 25
    ensures K.Flatten(s[i := Xor(s[i], t)]) == A.XorWord(K.Flatten(s), i, t)
  {
  }

  // ---- whole messages

  /** The pieces of a message, joined. */
  function Join(pieces: seq<seq<Byte>>): seq<Byte> {
    if pieces == [] then [] else Join(pieces[..|pieces| - 1]) + pieces[|pieces| - 1]
  }

  /** Any sequence of updates is one update with the joined pieces. */
  method UpdateAll(ctx: Context, pieces: seq<seq<Byte>>)
    requires ctx.Valid()
    modifies ctx, ctx.s
    ensures ctx.Valid() && ctx.message == old(ctx.message) + Join(pieces)
    ensures ctx.capacityWords == old(ctx.capacityWords)
  {
    hide Context.Valid;
    for i := 0 to |pieces|
      invariant ctx.Valid() && ctx.capacityWords == old(ctx.capacityWords)
      invariant ctx.message == old(ctx.message) + Join(pieces[..i])
    {
      ctx.Update(pieces[i]);
      assert pieces[..i + 1][..i] == pieces[..i];
    }
    assert pieces[..|pieces|] == pieces;
  }

  /**
   The context depends on the message alone: however two contexts of one capacity were fed,
   one message leaves every field of both the same.
   */
  lemma SameMessageSameContext(a: Context, b: Context)
    requires a.Valid() && b.Valid() && a.capacityWords == b.capacityWords && a.message == b.message
    ensures a.saved == b.saved && a.byteIndex == b.byteIndex && a.wordIndex == b.wordIndex && a.s[..] == b.s[..]
  {
    hide A.Mid, A.Blocks, A.HeadBits, A.Tail, A.WordOf, K.Flatten;
    FlattenInjective(a.s[..], b.s[..]);
  }

  lemma FlattenInjective(s: seq<Lane>, t: seq<Lane>)
    requires |s| == |t| == 25 && K.Flatten(s) == K.Flatten(t)
    ensures s == t
  {
    forall i | 0 <= i < 25
      ensures s[i] == t[i]
    {
      forall z | 0 <= z < 64
        ensures s[i][z] == t[i][z]
      {
        assert K.Flatten(s)[64 * i + z] == s[i][z] && K.Flatten(t)[64 * i + z] == t[i][z];
      }
    }
  }

  /** What `sha3_HashBuffer` writes is the front of the hash of its input, whatever the length. */
  method HashBuffer(bitSize: nat, flags: nat, input: seq<Byte>, out: array<Byte>, outBytes: nat) returns (err: Return)
    requires outBytes <= out.Length
    modifies out
    ensures err.Ok? <==> (bitSize == 256 || bitSize == 384 || bitSize == 512) && (flags == 0 || flags == 1)
    ensures err.BadParams? ==> out[..] == old(out[..])
    ensures err.Ok? ==>
      var k := if outBytes > bitSize / 8 then bitSize / 8 else outBytes;
      var N := BytesToBits(input) + if flags == 1 then [] else [false, true];
      && BytesToBits(out[..k]) == F.Sponge(1600 - 2 * bitSize, N, bitSize)[..8 * k]
      && out[k..] == old(out[k..])
  {
    hide F.Absorb, F.Sponge, BytesToBits, F.Pad101;
    var h;
    err, h := HashState(bitSize, flags, input);
    if err != Ok {
      return;
    }
    ghost var digest := h[..];
    var n := if outBytes > bitSize / 8 then bitSize / 8 else outBytes;
    CopyFront(h, out, n);
    DigestIsHash(bitSize, flags == 1, input, digest, n);
  }

  /** Everything up to the last permutation; `h` is what `sha3_Finalize` returns. */
  method HashState(bitSize: nat, flags: nat, input: seq<Byte>) returns (err: Return, h: array<Byte>)
    ensures err.Ok? <==> (bitSize == 256 || bitSize == 384 || bitSize == 512) && (flags == 0 || flags == 1)
    ensures fresh(h) && (err.Ok? ==> h.Length == 200)
    ensures err.Ok? ==>
      var r := 1600 - 2 * bitSize;
      var N := BytesToBits(input) + if flags == 1 then [] else [false, true];
      BytesToBits(h[..]) == F.Absorb(r, N + F.Pad101(r, |N|))
  {
    hide Context.Valid, F.Absorb, BytesToBits, F.Pad101, Cw;
    h := new Byte[0];
    var c := new Context();
    err := c.Init(bitSize);
    if err != Ok {
      return;
    }
    var masked := c.SetFlags(flags);
    if masked != flags {
      return BadParams, h;
    }
    c.Update(input);
    Capacity(bitSize);
    assert c.message == input && c.capacityWords == bitSize / 32 + if flags == 1 then 0x8000_0000 else 0;
    assert 1600 - 64 * (c.capacityWords % 0x8000_0000) == 1600 - 2 * bitSize;
    h := c.Finalize();
  }

  /** The hash, spelled out. */
  lemma HashIs(bitSize: nat, keccak: bool, m: seq<Byte>)
    requires Supported(bitSize)
    ensures Hash(bitSize, keccak, m) ==
      F.Sponge(1600 - 2 * bitSize, BytesToBits(m) + if keccak then [] else [false, true], bitSize)
  {
    hide F.Sponge;
  }

  /** memcpy */
  method CopyFront(from: array<Byte>, to: array<Byte>, n: nat)
    requires n <= from.Length && n <= to.Length && from != to
    modifies to
    ensures to[..] == from[..n] + old(to[n..])
  {
    forall i | 0 <= i < n {
      to[i] := from[i];
    }
  }

  /** The front of the final state is the sponge's output. */
  lemma DigestIsHash(bitSize: nat, keccak: bool, m: seq<Byte>, digest: seq<Byte>, n: nat)
    requires Supported(bitSize) && 8 * n <= bitSize && |digest| == 200
    requires var r := 1600 - 2 * bitSize; var N := BytesToBits(m) + if keccak then [] else [false, true];
      BytesToBits(digest) == F.Absorb(r, N + F.Pad101(r, |N|))
    ensures
      var N := BytesToBits(m) + if keccak then [] else [false, true];
      BytesToBits(digest[..n]) == F.Sponge(1600 - 2 * bitSize, N, bitSize)[..8 * n]
  {
    hide F.Absorb, F.Pad101, BytesToBits;
    FrontBits(digest, n);
  }

  lemma FrontBits(m: seq<Byte>, n: nat)
    requires n <= |m|
    ensures BytesToBits(m[..n]) == BytesToBits(m)[..8 * n]
  {
    BytesToBitsConcat(m[..n], m[n..]);
    assert m[..n] + m[n..] == m;
  }

  /** Keccak-256: rate 1088, no suffix, 256 bits of output. */
  function Keccak256(m: seq<Byte>): (r: seq<Byte>)
    ensures |r| == 32 && BytesToBits(r) == Hash(256, true, m)
  {
    BitsToBytes(Hash(256, true, m))
  }

  /** `SigningHelpers::keccak256`; the length it passes on is cut to 32 bits. */
  method Keccak(data: seq<Byte>) returns (output: array<Byte>)
    ensures fresh(output)
    ensures output[..] == Keccak256(data[..|data| % 0x1_0000_0000])
    ensures BytesToBits(output[..]) == F.Sponge(1088, BytesToBits(data[..|data| % 0x1_0000_0000]), 256)
  {
    hide Hash, F.Sponge;
    output := new Byte[32](i => 0);
    var input := data[..|data| % 0x1_0000_0000];
    var err := HashBuffer(256, FLAGS_KECCAK, input, output, 32);
    assert output[..32] == output[..];
    HashIs(256, true, input);
    assert BytesToBits(input) + [] == BytesToBits(input);
    BytesToBitsInjective(output[..], Keccak256(input));
  }
}
