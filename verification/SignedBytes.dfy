/**
 The bytes that are hashed for a signature, by position and value: what src/signing/SigningHelpers.cpp
 pushes, one byte after another, and nothing of how it gets there.
 */
module SignedBytes {
  import opened Arithmetic
  import opened Wrappers
  import Bits
  import opened ActionHash
  import opened Eip712
  import opened UserSigned
  import Hex
  import Sha3
  import F = Fips202

  // ---- numbers

  lemma PowsOf256()
    ensures Hex.Pow256(0) == 1 && Hex.Pow256(1) == 0x100 && Hex.Pow256(2) == 0x1_0000 && Hex.Pow256(3) == 0x100_0000
    ensures Hex.Pow256(4) == 0x1_0000_0000 && Hex.Pow256(5) == 0x100_0000_0000
    ensures Hex.Pow256(6) == 0x1_0000_0000_0000 && Hex.Pow256(7) == 0x100_0000_0000_0000
  {
  }

  /** The eight bytes of a number, highest first. */
  lemma NumberBytes(n: U64)
    ensures Hex.BigEndian(n, 8) == [
      n / 0x100_0000_0000_0000 % 256, n / 0x1_0000_0000_0000 % 256, n / 0x100_0000_0000 % 256, n / 0x1_0000_0000 % 256,
      n / 0x100_0000 % 256, n / 0x1_0000 % 256, n / 0x100 % 256, n % 256]
  {
    hide Hex.BigEndian, Hex.Pow256;
    PowsOf256();
    Hex.BigEndianAt(n, 8, 0);
    Hex.BigEndianAt(n, 8, 1);
    Hex.BigEndianAt(n, 8, 2);
    Hex.BigEndianAt(n, 8, 3);
    Hex.BigEndianAt(n, 8, 4);
    Hex.BigEndianAt(n, 8, 5);
    Hex.BigEndianAt(n, 8, 6);
    Hex.BigEndianAt(n, 8, 7);
  }

  /** A number's word: 24 zero bytes and the eight bytes of the number, highest first. */
  lemma WordBytes(n: U64)
    ensures var w := Hex.BigEndian(n, 32);
      && (forall k :: 0 <= k < 24 ==> w[k] == 0)
      && w[24..] == [
           n / 0x100_0000_0000_0000 % 256, n / 0x1_0000_0000_0000 % 256, n / 0x100_0000_0000 % 256,
           n / 0x1_0000_0000 % 256, n / 0x100_0000 % 256, n / 0x1_0000 % 256, n / 0x100 % 256, n % 256]
  {
    hide Hex.BigEndian, Hex.Pow256;
    NumberBytes(n);
    Hex.PowIsWord();
    Hex.BigEndianZero(n, 32, 8);
    forall k | 0 <= k < 24
      ensures Hex.BigEndian(n, 32)[k] == 0
    {
      assert Hex.BigEndian(n, 32)[..24][k] == 0;
    }
    forall j | 0 <= j < 8
      ensures Hex.BigEndian(n, 32)[24..][j] == Hex.BigEndian(n, 8)[j]
    {
      WordByte(n, j);
    }
    assert Hex.BigEndian(n, 32)[24..] == Hex.BigEndian(n, 8);
  }

  lemma WordByte(n: U64, j: nat)
    requires j < 8
    ensures Hex.BigEndian(n, 32)[24 + j] == Hex.BigEndian(n, 8)[j]
  {
    hide Hex.BigEndian, Hex.Pow256;
    Hex.BigEndianAt(n, 32, 7 - j);
    Hex.BigEndianAt(n, 8, 7 - j);
  }

  /** The hash is the sponge of rate 1088 without a suffix, of the data cut by a multiple of 2^32 bytes. */
  lemma HashIsKeccak(data: seq<Byte>, m: seq<Byte>, q: nat)
    requires m <= data && |m| < 0x1_0000_0000 && |data| == q * 0x1_0000_0000 + |m|
    ensures Bits.BytesToBits(Keccak(data)) == F.Sponge(1088, Bits.BytesToBits(m), 256)
  {
    hide F.Sponge, Bits.BytesToBits;
    ModOf(0x1_0000_0000, q, |m|);
    assert data[..|data| % 0x1_0000_0000] == m;
    Sha3.HashIs(256, true, m);
    assert Bits.BytesToBits(m) + [] == Bits.BytesToBits(m);
  }

  lemma OctetAt(s: string, i: nat)
    requires i < |s| && s[i] as int < 256
    ensures Octets(s)[i] == s[i] as int
  {
  }

  // ---- the L1 action

  lemma FourParts(a: seq<Byte>, b: seq<Byte>, c: seq<Byte>, d: seq<Byte>)
    ensures var p := a + b + c + d;
      p[..|a|] == a && p[|a|..|a| + |b|] == b && p[|a| + |b|..|a| + |b| + |c|] == c && p[|a| + |b| + |c|..] == d
  {
  }

  /** A byte and what follows it, inside a longer string. */
  lemma Inside(p: seq<Byte>, i: nat, first: Byte, rest: seq<Byte>)
    requires i + 1 + |rest| <= |p| && p[i..i + 1 + |rest|] == [first] + rest
    ensures p[i] == first && p[i + 1..i + 1 + |rest|] == rest
  {
    assert p[i] == p[i..i + 1 + |rest|][0];
    assert p[i + 1..i + 1 + |rest|] == p[i..i + 1 + |rest|][1..];
  }

  lemma PreimageParts(action: seq<Byte>, nonce: U64, vault: Option<seq<Byte>>, expiresAfter: Option<U64>)
    ensures var p, a := Preimage(action, nonce, vault, expiresAfter), |action|;
      var v := if vault.Some? then |vault.value| else 0;
      && |p| == a + 8 + 1 + v + (if expiresAfter.Some? then 9 else 0)
      && p[..a] == action && p[a..a + 8] == Hex.BigEndian(nonce, 8)
      && p[a + 8] == (if vault.Some? then 1 else 0)
      && (vault.Some? ==> p[a + 9..a + 9 + v] == vault.value)
      && (expiresAfter.Some? ==> p[a + 9 + v] == 0 && p[a + 10 + v..] == Hex.BigEndian(expiresAfter.value, 8))
  {
    hide *;
    var p, a := Preimage(action, nonce, vault, expiresAfter), |action|;
    PreimageIs(action, nonce, vault, expiresAfter);
    FourParts(action, Hex.BigEndian(nonce, 8), VaultPart(vault), ExpiryPart(expiresAfter));
    VaultBytes(p, a + 8, vault);
    ExpiryBytes(p, a + 8 + |VaultPart(vault)|, expiresAfter);
  }

  lemma PreimageIs(action: seq<Byte>, nonce: U64, vault: Option<seq<Byte>>, expiresAfter: Option<U64>)
    ensures Preimage(action, nonce, vault, expiresAfter) ==
            action + Hex.BigEndian(nonce, 8) + VaultPart(vault) + ExpiryPart(expiresAfter)
  {
  }

  lemma VaultBytes(p: seq<Byte>, i: nat, vault: Option<seq<Byte>>)
    requires i + |VaultPart(vault)| <= |p| && p[i..i + |VaultPart(vault)|] == VaultPart(vault)
    ensures |VaultPart(vault)| == 1 + (if vault.Some? then |vault.value| else 0)
    ensures p[i] == (if vault.Some? then 1 else 0)
    ensures vault.Some? ==> p[i + 1..i + 1 + |vault.value|] == vault.value
  {
    match vault {
      case Some(address) => Inside(p, i, 1, address);
      case None => Inside(p, i, 0, []);
    }
  }

  lemma ExpiryBytes(p: seq<Byte>, i: nat, expiresAfter: Option<U64>)
    requires i <= |p| && p[i..] == ExpiryPart(expiresAfter)
    ensures |p| == i + if expiresAfter.Some? then 9 else 0
    ensures expiresAfter.Some? ==> p[i] == 0 && p[i + 1..] == Hex.BigEndian(expiresAfter.value, 8)
  {
    hide Hex.BigEndian;
    if expiresAfter.Some? {
      assert p[i..] == p[i..i + 9] && p[i + 1..] == p[i + 1..i + 9];
      Inside(p, i, 0, Hex.BigEndian(expiresAfter.value, 8));
    }
  }

  /**
   The preimage: the action; the nonce; 0, or 1 and the vault's bytes; and nothing, or 0 and the expiry.
   */
  lemma PreimageBytes(action: seq<Byte>, nonce: U64, vault: Option<seq<Byte>>, expiresAfter: Option<U64>)
    ensures var p, a := Preimage(action, nonce, vault, expiresAfter), |action|;
      var v := if vault.Some? then |vault.value| else 0;
      && |p| == a + 8 + 1 + v + (if expiresAfter.Some? then 9 else 0)
      && p[..a] == action
      && p[a..a + 8] == [
           nonce / 0x100_0000_0000_0000 % 256, nonce / 0x1_0000_0000_0000 % 256, nonce / 0x100_0000_0000 % 256,
           nonce / 0x1_0000_0000 % 256, nonce / 0x100_0000 % 256, nonce / 0x1_0000 % 256, nonce / 0x100 % 256,
           nonce % 256]
      && p[a + 8] == (if vault.Some? then 1 else 0)
      && (vault.Some? ==> p[a + 9..a + 9 + v] == vault.value)
      && (expiresAfter.Some? ==>
            var e := expiresAfter.value;
            && p[a + 9 + v] == 0
            && p[a + 10 + v..] == [
                 e / 0x100_0000_0000_0000 % 256, e / 0x1_0000_0000_0000 % 256, e / 0x100_0000_0000 % 256,
                 e / 0x1_0000_0000 % 256, e / 0x100_0000 % 256, e / 0x1_0000 % 256, e / 0x100 % 256, e % 256])
  {
    hide Hex.BigEndian, Preimage;
    PreimageParts(action, nonce, vault, expiresAfter);
    NumberBytes(nonce);
    if expiresAfter.Some? {
      NumberBytes(expiresAfter.value);
    }
  }

  /** The EIP-712 domain: type, name, version, the chain's number and the zero address. */
  lemma DomainBytes(name: string, version: string, chainId: U64)
    ensures DomainSeparator(name, version, chainId) == Keccak(
      Keccak(Octets("EIP712Domain(string name,string version,uint256 chainId,address verifyingContract)")) +
      Keccak(Octets(name)) + Keccak(Octets(version)) + Hex.BigEndian(chainId, 32) + seq(32, k => 0))
  {
    hide Keccak, Octets, Hex.BigEndian;
    assert EncodeAddress(Zeros(20)) == seq(32, k => 0);
  }

  /** What is signed for an L1 action: the agent struct over the preimage's hash, in the exchange's domain. */
  lemma L1Bytes(action: seq<Byte>, vault: Option<seq<Byte>>, nonce: U64, expiresAfter: Option<U64>, isMainnet: bool)
    ensures SignedL1(action, vault, nonce, expiresAfter, isMainnet) == Keccak(
      [0x19, 0x01] + DomainSeparator("Exchange", "1", 1337) + Keccak(
        Keccak(Octets("Agent(string source,bytes32 connectionId)")) +
        Keccak(Octets(if isMainnet then "a" else "b")) + Keccak(Preimage(action, nonce, vault, expiresAfter))))
  {
    hide Keccak, Octets, Preimage, DomainSeparator;
  }

  // ---- user-signed actions

  /** The word of one field: text and bytes by their hash; numbers, truth values and addresses to the right. */
  lemma FieldBytes(typ: string, v: Value)
    requires Recognised(typ) && EncodeField(typ, v).Success?
    ensures var w := EncodeField(typ, v).value;
      && (typ == "string" ==> v.Str? && w == Keccak(Octets(v.s)))
      && (typ == "bytes" ==> v.Str? && Hex.ParsedHex(v.s).Success? && w == Keccak(Hex.ParsedHex(v.s).value))
      && (typ == "uint64" || typ == "uint32" ==> v.Num? && w == Hex.BigEndian(v.n, 32))
      && (typ == "bool" ==> v.Boolean? && w == seq(31, k => 0) + [if v.b then 1 else 0])
      && (typ == "address" ==>
            && v.Str? && Hex.ParsedHex(v.s).Success?
            && var b := Hex.ParsedHex(v.s).value;
               w == if |b| == 20 then seq(12, k => 0) + b else seq(32, k => 0))
  {
    hide Keccak, Octets, Hex.ParsedHex;
    if typ == "bool" {
      hide Hex.BigEndian;
      WordBytes(if v.b then 1 else 0);
      assert EncodeField(typ, v).value == EncodeField(typ, v).value[..24] + EncodeField(typ, v).value[24..];
    }
  }

  /** A prepared action: network, chain and nonce or time are set as the exchange expects them, the rest is as given. */
  lemma FilledFields(action: Action, timeField: string, nonce: U64, isMainnet: bool)
    requires timeField == "time" || timeField == "nonce"
    ensures var a := Filled(action, timeField, nonce, isMainnet);
      && a.Keys == action.Keys + {timeField, "signatureChainId", "hyperliquidChain"}
      && a["hyperliquidChain"] == Str(if isMainnet then "Mainnet" else "Testnet")
      && a["signatureChainId"] == Str("0x66eee")
      && a[timeField] == Num(nonce)
      && (forall k :: k in action && k != timeField && k != "signatureChainId" && k != "hyperliquidChain" ==>
            a[k] == action[k])
  {
    TimeFieldKept(timeField);
    DifferentKeys();
  }

  lemma DifferentKeys()
    ensures "signatureChainId" != "hyperliquidChain"
  {
    assert "signatureChainId"[0] != "hyperliquidChain"[0];
  }

  /** What is signed for a user-signed action: its struct's hash, in the domain of the chain 0x66eee. */
  lemma DigestBytes(s: Schema, action: Action)
    ensures Digest(s, action).Success? <==> StructEncoding(s.primaryType, s.payloadTypes, action).Success?
    ensures Digest(s, action).Success? ==>
      Digest(s, action).value == Keccak(
        [0x19, 0x01] + DomainSeparator("HyperliquidSignTransaction", "1", 0x66eee) +
        Keccak(StructEncoding(s.primaryType, s.payloadTypes, action).value))
  {
    hide Keccak, DomainSeparator, StructEncoding;
  }
}
