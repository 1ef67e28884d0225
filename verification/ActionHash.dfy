/**
 What an L1 action's signature covers: `actionHash`, `agentStructHash` and `eip712Hash` of
 src/signing/SigningHelpers.cpp, as `signL1Action` composes them.
 */
module ActionHash {
  import opened Wrappers
  import Bits
  import Hex
  import Sha3

  type Byte = Bits.Byte
  type U64 = n: nat | n < 0x1_0000_0000_0000_0000

  /** `SigningHelpers::keccak256`, with the 32-bit length it passes on. */
  function Keccak(data: seq<Byte>): (r: seq<Byte>)
    ensures |r| == 32
  {
    Sha3.Keccak256(data[..|data| % 0x1_0000_0000])
  }

  /** The octets of a `std::string`; a char here stands for one octet. */
  function Octets(s: string): (r: seq<Byte>)
    ensures |r| == |s|
  {
    seq(|s|, i requires 0 <= i < |s| => s[i] as int % 256)
  }

  /** These two inputs are not a collision of the hash. */
  ghost predicate NoCollision(x: seq<Byte>, y: seq<Byte>) {
    Keccak(x) == Keccak(y) ==> x == y
  }

  // ---- the preimage

  function VaultPart(vault: Option<seq<Byte>>): seq<Byte> {
    match vault
    case None => [0]
    case Some(address) => [1] + address
  }

  function ExpiryPart(expiresAfter: Option<U64>): seq<Byte> {
    match expiresAfter
    case None => []
    case Some(e) => [0] + Hex.BigEndian(e, 8)
  }

  /** The bytes `actionHash` hashes, for an action already in MessagePack. */
  function Preimage(action: seq<Byte>, nonce: U64, vault: Option<seq<Byte>>, expiresAfter: Option<U64>): seq<Byte> {
    action + Hex.BigEndian(nonce, 8) + VaultPart(vault) + ExpiryPart(expiresAfter)
  }

  /** The loop that pushes a number from its highest byte down. */
  method PushBigEndian(data: seq<Byte>, value: U64) returns (r: seq<Byte>)
    ensures r == data + Hex.BigEndian(value, 8)
  {
    hide Hex.BigEndian, Hex.Pow256;
    r := data;
    var idx := 8;
    while idx > 0
      invariant 0 <= idx <= 8
      invariant r == data + Hex.BigEndian(value, 8)[..8 - idx]
    {
      idx := idx - 1;
      Hex.BigEndianAt(value, 8, idx);
      r := r + [Hex.ByteOf(value, idx)];
    }
  }

  function ParsedVault(vaultAddress: Option<string>): Result<Option<seq<Byte>>> {
    match vaultAddress
    case None => Success(None)
    case Some(text) =>
      var bytes :- Hex.ParsedHex(text);
      Success(Some(bytes))
  }

  method ActionHash(action: seq<Byte>, vaultAddress: Option<string>, nonce: U64, expiresAfter: Option<U64>)
    returns (r: Result<seq<Byte>>)
    ensures r.Success? <==> vaultAddress.None? || Hex.ParsedHex(vaultAddress.value).Success?
    ensures r.Success? ==>
      var vault := if vaultAddress.None? then None else Some(Hex.ParsedHex(vaultAddress.value).value);
      r.value == Keccak(Preimage(action, nonce, vault, expiresAfter))
  {
    hide Sha3.Keccak256, Hex.BigEndian, Hex.ParsedHex;
    var data := PushBigEndian(action, nonce);
    if vaultAddress.None? {
      data := data + [0];
    } else {
      data := data + [1];
      var addrBytes := Hex.HexToBytes(vaultAddress.value);
      if addrBytes.Failure? {
        return Failure;
      }
      data := data + addrBytes.value;
    }
    ghost var vault := ParsedVault(vaultAddress).value;
    assert data == action + Hex.BigEndian(nonce, 8) + VaultPart(vault);
    if expiresAfter.Some? {
      data := data + [0];
      data := PushBigEndian(data, expiresAfter.value);
    }
    assert data == Preimage(action, nonce, vault, expiresAfter);
    var output := Sha3.Keccak(data);
    return Success(output[..]);
  }

  // ---- unique decoding

  /** No encoding is the beginning of another one. */
  ghost predicate PrefixFree<A(!new)>(enc: A -> seq<Byte>) {
    forall x, y :: enc(x) <= enc(y) ==> x == y
  }

  lemma SameFront<A(!new)>(enc: A -> seq<Byte>, a: A, b: A, s: seq<Byte>, t: seq<Byte>)
    requires PrefixFree(enc) && enc(a) + s == enc(b) + t
    ensures a == b && s == t
  {
    var p := enc(a) + s;
    assert enc(a) == p[..|enc(a)|] && enc(b) == p[..|enc(b)|];
    assert enc(a) <= enc(b) || enc(b) <= enc(a);
    assert s == p[|enc(a)|..] && t == p[|enc(b)|..];
  }

  lemma SameNumber(m: U64, n: U64, s: seq<Byte>, t: seq<Byte>)
    requires Hex.BigEndian(m, 8) + s == Hex.BigEndian(n, 8) + t
    ensures m == n && s == t
  {
    hide Hex.BigEndian, Hex.Pow256;
    var p := Hex.BigEndian(m, 8) + s;
    assert Hex.BigEndian(m, 8) == p[..8] && Hex.BigEndian(n, 8) == p[..8];
    assert s == p[8..] && t == p[8..];
    Hex.PowIsWord();
    Hex.ValueOfBigEndian(m, 8);
    Hex.ValueOfBigEndian(n, 8);
  }

  lemma SameExpiry(e: Option<U64>, f: Option<U64>)
    requires ExpiryPart(e) == ExpiryPart(f)
    ensures e == f
  {
    hide Hex.BigEndian;
    if e.Some? && f.Some? {
      assert ExpiryPart(e)[1..] == Hex.BigEndian(e.value, 8) && ExpiryPart(f)[1..] == Hex.BigEndian(f.value, 8);
      assert Hex.BigEndian(e.value, 8) + [] == Hex.BigEndian(f.value, 8) + [];
      SameNumber(e.value, f.value, [], []);
    }
  }

  /** What follows the nonce. */
  function Ending(vault: Option<seq<Byte>>, expiresAfter: Option<U64>): seq<Byte> {
    VaultPart(vault) + ExpiryPart(expiresAfter)
  }

  /** The vault `w`, sent without an expiry, spells out the vault `v` and its expiry `e`. */
  predicate Swallows(w: Option<seq<Byte>>, f: Option<U64>, v: Option<seq<Byte>>, e: Option<U64>) {
    v.Some? && e.Some? && w.Some? && f.None? && w.value == v.value + ExpiryPart(e)
  }

  predicate SameEnding(v: Option<seq<Byte>>, e: Option<U64>, w: Option<seq<Byte>>, f: Option<U64>) {
    (v == w && e == f) || Swallows(w, f, v, e) || Swallows(v, e, w, f)
  }

  /** Exactly when two vaults with their expiries have the same bytes; nothing is assumed of their lengths. */
  lemma EndingsMeet(v: Option<seq<Byte>>, e: Option<U64>, w: Option<seq<Byte>>, f: Option<U64>)
    ensures Ending(v, e) == Ending(w, f) <==> SameEnding(v, e, w, f)
  {
    hide Ending, Swallows;
    if Ending(v, e) == Ending(w, f) {
      EndingsTell(v, e, w, f);
    }
    if Swallows(w, f, v, e) {
      Swallowed(w, f, v, e);
    }
    if Swallows(v, e, w, f) {
      Swallowed(v, e, w, f);
    }
  }

  lemma Swallowed(w: Option<seq<Byte>>, f: Option<U64>, v: Option<seq<Byte>>, e: Option<U64>)
    requires Swallows(w, f, v, e)
    ensures Ending(w, f) == Ending(v, e)
  {
    hide Hex.BigEndian;
    var x := ExpiryPart(e);
    hide ExpiryPart;
    assert [1] + (v.value + x) == [1] + v.value + x;
    NoExpiry();
  }

  lemma NoExpiry()
    ensures ExpiryPart(None) == []
  {
  }

  lemma EndingsTell(v: Option<seq<Byte>>, e: Option<U64>, w: Option<seq<Byte>>, f: Option<U64>)
    requires Ending(v, e) == Ending(w, f)
    ensures SameEnding(v, e, w, f)
  {
    hide ExpiryPart;
    var x, y := VaultPart(v), VaultPart(w);
    assert Ending(v, e)[0] == x[0] && Ending(w, f)[0] == y[0];
    assert Ending(v, e)[1..] == x[1..] + ExpiryPart(e) && Ending(w, f)[1..] == y[1..] + ExpiryPart(f);
    EndingsSplit(x[1..], e, y[1..], f);
    assert v.Some? ==> x[1..] == v.value;
    assert w.Some? ==> y[1..] == w.value;
  }

  lemma EndingsSplit(x: seq<Byte>, e: Option<U64>, y: seq<Byte>, f: Option<U64>)
    requires x + ExpiryPart(e) == y + ExpiryPart(f)
    ensures |x| == |y| ==> x == y && e == f
    ensures |x| < |y| ==> e.Some? && f.None? && y == x + ExpiryPart(e)
    ensures |y| < |x| ==> f.Some? && e.None? && x == y + ExpiryPart(f)
  {
    hide Hex.BigEndian;
    if |x| == |y| {
      var p := x + ExpiryPart(e);
      assert x == p[..|x|] && y == p[..|x|];
      assert ExpiryPart(e) == p[|x|..] && ExpiryPart(f) == p[|x|..];
      SameExpiry(e, f);
    }
  }

  /**
   What a preimage says, whatever the vaults: action and nonce always, and vault and expiry
   except where a vault sent without an expiry spells out the other vault and its expiry.
   */
  lemma PreimagesMeet<A(!new)>(enc: A -> seq<Byte>, a: A, b: A, m: U64, n: U64,
      v: Option<seq<Byte>>, w: Option<seq<Byte>>, e: Option<U64>, f: Option<U64>)
    requires PrefixFree(enc)
    ensures Preimage(enc(a), m, v, e) == Preimage(enc(b), n, w, f) <==> a == b && m == n && SameEnding(v, e, w, f)
  {
    hide Hex.BigEndian, PrefixFree, SameEnding, VaultPart, ExpiryPart;
    EndingsMeet(v, e, w, f);
    assert Preimage(enc(a), m, v, e) == enc(a) + (Hex.BigEndian(m, 8) + Ending(v, e));
    assert Preimage(enc(b), n, w, f) == enc(b) + (Hex.BigEndian(n, 8) + Ending(w, f));
    if Preimage(enc(a), m, v, e) == Preimage(enc(b), n, w, f) {
      SameFront(enc, a, b, Hex.BigEndian(m, 8) + Ending(v, e), Hex.BigEndian(n, 8) + Ending(w, f));
      SameNumber(m, n, Ending(v, e), Ending(w, f));
    }
  }

  /** The code does not check the address length; a 29-byte vault can stand for a 20-byte one and an expiry. */
  lemma LongVaultReadsAsExpiry(action: seq<Byte>, nonce: U64, address: seq<Byte>, e: U64)
    ensures Preimage(action, nonce, Some(address + [0] + Hex.BigEndian(e, 8)), None) ==
            Preimage(action, nonce, Some(address), Some(e))
  {
    hide Hex.BigEndian;
    var x := action + Hex.BigEndian(nonce, 8);
    assert x + ([1] + (address + [0] + Hex.BigEndian(e, 8))) + [] == x + ([1] + address) + ([0] + Hex.BigEndian(e, 8));
  }

  // ---- which vault lengths are safe

  predicate Permitted(vault: Option<seq<Byte>>, lengths: iset<nat>) {
    vault.Some? ==> |vault.value| in lengths
  }

  /** No permitted length is another one plus the nine bytes of an expiry. */
  ghost predicate NoneNineApart(lengths: iset<nat>) {
    forall i :: i in lengths ==> i + 9 !in lengths
  }

  ghost predicate OneReading(lengths: iset<nat>) {
    forall v, e, w, f | Ending(v, e) == Ending(w, f) ::
      Permitted(v, lengths) && Permitted(w, lengths) ==> v == w && e == f
  }

  /** The check a caller could make on vault lengths, and no weaker check would do. */
  lemma SafeLengths(lengths: iset<nat>)
    ensures OneReading(lengths) <==> NoneNineApart(lengths)
  {
    hide Hex.BigEndian, Ending;
    if NoneNineApart(lengths) {
      forall v, e, w, f | Ending(v, e) == Ending(w, f) && Permitted(v, lengths) && Permitted(w, lengths)
        ensures v == w && e == f
      {
        EndingsMeet(v, e, w, f);
      }
    } else {
      var i :| i in lengths && i + 9 in lengths;
      var v := Some(seq(i, k => 0));
      var w := Some(v.value + ExpiryPart(Some(0)));
      EndingsMeet(v, Some(0), w, None);
      assert Permitted(v, lengths) && Permitted(w, lengths);
    }
  }

  /**
   Given a prefix-free action encoding and vaults of safe lengths, such as 20 bytes only, the
   preimage can be read in one way: equal bytes mean the same action, nonce, vault and expiry.
   */
  lemma UniquelyDecodable<A(!new)>(enc: A -> seq<Byte>, lengths: iset<nat>, a: A, b: A, m: U64, n: U64,
      v: Option<seq<Byte>>, w: Option<seq<Byte>>, e: Option<U64>, f: Option<U64>)
    requires PrefixFree(enc) && NoneNineApart(lengths) && Permitted(v, lengths) && Permitted(w, lengths)
    requires Preimage(enc(a), m, v, e) == Preimage(enc(b), n, w, f)
    ensures a == b && m == n && v == w && e == f
  {
    hide Preimage, PrefixFree, Permitted, SameEnding, Ending;
    PreimagesMeet(enc, a, b, m, n, v, w, e, f);
    EndingsMeet(v, e, w, f);
    SafeLengths(lengths);
  }

  // ---- the signed digest

  /** eip712Hash */
  function Eip712Message(domainSeparator: seq<Byte>, structHash: seq<Byte>): seq<Byte> {
    [0x19, 0x01] + domainSeparator + structHash
  }

  const AGENT_TYPE: string := "Agent(string source,bytes32 connectionId)"

  /** agentStructHash */
  function AgentStruct(source: string, connectionId: seq<Byte>): seq<Byte> {
    Keccak(Octets(AGENT_TYPE)) + Keccak(Octets(source)) + connectionId
  }

  function Source(isMainnet: bool): string {
    if isMainnet then "a" else "b"
  }

  /** What `signL1Action` hands to the signature scheme. */
  function L1Digest(domainSeparator: seq<Byte>, action: seq<Byte>, vault: Option<seq<Byte>>, nonce: U64,
      expiresAfter: Option<U64>, isMainnet: bool): seq<Byte>
  {
    var connectionId := Keccak(Preimage(action, nonce, vault, expiresAfter));
    Keccak(Eip712Message(domainSeparator, Keccak(AgentStruct(Source(isMainnet), connectionId))))
  }

  /**
   What a signature covers: barring collisions among the inputs actually hashed, equal digests
   mean the same action, nonce and network, and the same vault and expiry up to `SameEnding`;
   so exactly the same for vaults of safe lengths.
   */
  lemma DigestBinds<A(!new)>(enc: A -> seq<Byte>, dom: seq<Byte>, a: A, b: A, m: U64, n: U64,
      v: Option<seq<Byte>>, w: Option<seq<Byte>>, e: Option<U64>, f: Option<U64>, main: bool, other: bool)
    requires PrefixFree(enc)
    requires L1Digest(dom, enc(a), v, m, e, main) == L1Digest(dom, enc(b), w, n, f, other)
    requires var p, q := Preimage(enc(a), m, v, e), Preimage(enc(b), n, w, f);
      var x, y := AgentStruct(Source(main), Keccak(p)), AgentStruct(Source(other), Keccak(q));
      && NoCollision(p, q) && NoCollision(x, y)
      && NoCollision(Eip712Message(dom, Keccak(x)), Eip712Message(dom, Keccak(y)))
      && NoCollision(Octets("a"), Octets("b"))
    ensures a == b && m == n && main == other && SameEnding(v, e, w, f)
    ensures forall lengths ::
      NoneNineApart(lengths) && Permitted(v, lengths) && Permitted(w, lengths) ==> v == w && e == f
  {
    hide Keccak, Preimage, PrefixFree, SameEnding, Permitted, NoneNineApart;
    var p, q := Preimage(enc(a), m, v, e), Preimage(enc(b), n, w, f);
    var x, y := AgentStruct(Source(main), Keccak(p)), AgentStruct(Source(other), Keccak(q));
    var s, t := Eip712Message(dom, Keccak(x)), Eip712Message(dom, Keccak(y));
    assert s == t;
    assert s[|dom| + 2..] == Keccak(x) && t[|dom| + 2..] == Keccak(y);
    assert x == y;
    assert x[64..] == Keccak(p) && y[64..] == Keccak(q);
    assert x[32..64] == Keccak(Octets(Source(main))) && y[32..64] == Keccak(Octets(Source(other)));
    assert Octets("a")[0] == 97 && Octets("b")[0] == 98;
    PreimagesMeet(enc, a, b, m, n, v, w, e, f);
    forall lengths | NoneNineApart(lengths) && Permitted(v, lengths) && Permitted(w, lengths)
      ensures v == w && e == f
    {
      UniquelyDecodable(enc, lengths, a, b, m, n, v, w, e, f);
    }
  }
}
