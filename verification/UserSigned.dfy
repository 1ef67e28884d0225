/**
 The user-signed actions of src/signing/Signing.cpp: their field lists, and what ends up
 signed when a body is prepared.
 */
module UserSigned {
  import opened Wrappers
  import opened ActionHash
  import opened Eip712
  import Hex

  /** The endpoints that matter here; `Other` stands for all the rest. */
  datatype Endpoint =
    | UsdSend
    | Withdraw3
    | SpotSend
    | UsdClassTransfer
    | SendAsset
    | ApproveBuilderFee
    | UserSetAbstraction
    | CDeposit
    | CWithdraw
    | TokenDelegate
    | SendToEvmWithData
    | UserDexAbstraction
    | UserPortfolioMargin
    | ApproveAgent
    | Other

  /** isUserSignedAction */
  predicate IsUserSignedAction(e: Endpoint) {
    match e
    case UsdClassTransfer | SendAsset | UsdSend | SpotSend | Withdraw3 | ApproveBuilderFee | UserSetAbstraction => true
    case CDeposit | CWithdraw | TokenDelegate | SendToEvmWithData | UserDexAbstraction | UserPortfolioMargin => true
    case _ => false
  }

  datatype Schema = Schema(primaryType: string, payloadTypes: seq<Field>, timeField: string)

  function Text(name: string): Field {
    Field(name, "string")
  }

  const CHAIN: Field := Text("hyperliquidChain")
  const NONCE: Field := Field("nonce", "uint64")
  const TIME: Field := Field("time", "uint64")

  /** The switch of `prepareUserSignedActionBody`. */
  function SchemaOf(e: Endpoint): Option<Schema> {
    match e
    case UsdSend =>
      Some(Schema("HyperliquidTransaction:UsdSend",
        [CHAIN, Text("destination"), Text("amount"), TIME], "time"))
    case Withdraw3 =>
      Some(Schema("HyperliquidTransaction:Withdraw",
        [CHAIN, Text("destination"), Text("amount"), TIME], "time"))
    case SpotSend =>
      Some(Schema("HyperliquidTransaction:SpotSend",
        [CHAIN, Text("destination"), Text("token"), Text("amount"), TIME], "time"))
    case UsdClassTransfer =>
      Some(Schema("HyperliquidTransaction:UsdClassTransfer",
        [CHAIN, Text("amount"), Field("toPerp", "bool"), NONCE], "nonce"))
    case SendAsset =>
      Some(Schema("HyperliquidTransaction:SendAsset",
        [CHAIN, Text("destination"), Text("sourceDex"), Text("destinationDex"), Text("token"), Text("amount"),
         Text("fromSubAccount"), NONCE], "nonce"))
    case ApproveBuilderFee =>
      Some(Schema("HyperliquidTransaction:ApproveBuilderFee",
        [CHAIN, Text("maxFeeRate"), Field("builder", "address"), NONCE], "nonce"))
    case UserSetAbstraction =>
      Some(Schema("HyperliquidTransaction:UserSetAbstraction",
        [CHAIN, Field("user", "address"), Text("abstraction"), NONCE], "nonce"))
    case CDeposit =>
      Some(Schema("HyperliquidTransaction:CDeposit", [CHAIN, Field("wei", "uint64"), NONCE], "nonce"))
    case CWithdraw =>
      Some(Schema("HyperliquidTransaction:CWithdraw", [CHAIN, Field("wei", "uint64"), NONCE], "nonce"))
    case TokenDelegate =>
      Some(Schema("HyperliquidTransaction:TokenDelegate",
        [CHAIN, Field("validator", "address"), Field("wei", "uint64"), Field("isUndelegate", "bool"), NONCE], "nonce"))
    case SendToEvmWithData =>
      Some(Schema("HyperliquidTransaction:SendToEvmWithData",
        [CHAIN, Text("token"), Text("amount"), Text("sourceDex"), Text("destinationRecipient"),
         Text("addressEncoding"), Field("destinationChainId", "uint32"), Field("gasLimit", "uint64"),
         Field("data", "bytes"), NONCE], "nonce"))
    case UserDexAbstraction =>
      Some(Schema("HyperliquidTransaction:UserDexAbstraction",
        [CHAIN, Field("user", "address"), Field("enabled", "bool"), NONCE], "nonce"))
    case UserPortfolioMargin =>
      Some(Schema("HyperliquidTransaction:UserPortfolioMargin",
        [CHAIN, Field("user", "address"), Field("enabled", "bool"), NONCE], "nonce"))
    case _ => None
  }

  /** The list of `prepareApproveAgentBody`, whose action carries the nonce too. */
  const APPROVE_AGENT: Schema := Schema("HyperliquidTransaction:ApproveAgent",
    [CHAIN, Field("agentAddress", "address"), Text("agentName"), NONCE], "nonce")

  /** A list fit for signing: types all recognised, the chain first, the 64-bit nonce or time last. */
  predicate WellFormed(s: Schema) {
    && |s.payloadTypes| >= 2
    && (forall i :: 0 <= i < |s.payloadTypes| ==> Recognised(s.payloadTypes[i].typ))
    && s.payloadTypes[0] == CHAIN
    && s.payloadTypes[|s.payloadTypes| - 1] == Field(s.timeField, "uint64")
    && (s.timeField == "time" || s.timeField == "nonce")
  }

  lemma SchemasAgree(e: Endpoint)
    ensures SchemaOf(e).Some? <==> IsUserSignedAction(e)
    ensures IsUserSignedAction(e) <==> e != ApproveAgent && e != Other
  {
  }

  /** The predicate and the switch agree, and every list is fit for signing. */
  lemma SchemasWellFormed(e: Endpoint)
    ensures SchemaOf(e).Some? <==> IsUserSignedAction(e)
    ensures SchemaOf(e).Some? ==> WellFormed(SchemaOf(e).value)
    ensures WellFormed(APPROVE_AGENT)
  {
    hide Recognised, IsUserSignedAction;
    KnownTypes();
    SchemasAgree(e);
    match e
    case UsdSend => case Withdraw3 => case SpotSend => case UsdClassTransfer => case SendAsset =>
    case ApproveBuilderFee => case UserSetAbstraction => case CDeposit => case CWithdraw => case TokenDelegate =>
    case SendToEvmWithData => case UserDexAbstraction => case UserPortfolioMargin => case _ =>
  }

  lemma KnownTypes()
    ensures Recognised("string") && Recognised("uint64") && Recognised("uint32")
    ensures Recognised("address") && Recognised("bool") && Recognised("bytes")
  {
  }

  // ---- preparing a body

  const DOMAIN_TYPE: string :=
    "EIP712Domain(string name,string version,uint256 chainId,address verifyingContract)"

  const CHAIN_ID: U64 := 0x66eee

  /** domainSeparatorHash, with the zero address as the verifying contract. */
  function DomainSeparator(name: string, version: string, chainId: U64): (r: seq<Byte>)
    ensures |r| == 32
  {
    Keccak(Keccak(Octets(DOMAIN_TYPE)) + Keccak(Octets(name)) + Keccak(Octets(version)) +
           Hex.BigEndian(chainId, 32) + EncodeAddress(Zeros(20)))
  }

  /** What `signL1Action` signs: the digest in the domain of `domainSeparatorHash` without arguments. */
  function SignedL1(action: seq<Byte>, vault: Option<seq<Byte>>, nonce: U64, expiresAfter: Option<U64>,
      isMainnet: bool): seq<Byte>
  {
    L1Digest(DomainSeparator("Exchange", "1", 1337), action, vault, nonce, expiresAfter, isMainnet)
  }

  /** The body without the signature itself: `digest` is what gets signed. */
  datatype Body = Body(action: Action, nonce: U64, digest: seq<Byte>)

  function ChainName(isMainnet: bool): string {
    if isMainnet then "Mainnet" else "Testnet"
  }

  function Filled(action: Action, timeField: string, nonce: U64, isMainnet: bool): Action {
    action[timeField := Num(nonce)]
          ["signatureChainId" := Str("0x66eee")]
          ["hyperliquidChain" := Str(ChainName(isMainnet))]
  }

  function Digest(s: Schema, action: Action): Result<seq<Byte>> {
    var enc :- StructEncoding(s.primaryType, s.payloadTypes, action);
    Success(Keccak(Eip712Message(DomainSeparator("HyperliquidSignTransaction", "1", CHAIN_ID), Keccak(enc))))
  }

  /** prepareUserSignedActionBody: fails without a wallet, for other endpoints, and where the action lacks a field. */
  method PrepareUserSignedActionBody(hasWallet: bool, isMainnet: bool, e: Endpoint, action: Action, nonce: U64)
    returns (r: Result<Body>)
    ensures r.Success? ==> hasWallet && IsUserSignedAction(e)
    ensures hasWallet && IsUserSignedAction(e) ==>
      var s := SchemaOf(e).value;
      var filled := Filled(action, s.timeField, nonce, isMainnet);
      && (r.Success? <==> Digest(s, filled).Success?)
      && (r.Success? ==> r.value == Body(filled, nonce, Digest(s, filled).value))
  {
    hide StructEncoding, Keccak, DomainSeparator, SchemaOf;
    SchemasWellFormed(e);
    if !hasWallet || SchemaOf(e).None? {
      return Failure;
    }
    var s := SchemaOf(e).value;
    var filled := action[s.timeField := Num(nonce)];
    filled := filled["signatureChainId" := Str("0x66eee")];
    filled := filled["hyperliquidChain" := Str(ChainName(isMainnet))];
    var structHash := UserSignedStructHash(s.primaryType, s.payloadTypes, filled);
    if structHash.Failure? {
      return Failure;
    }
    var dom := DomainSeparator("HyperliquidSignTransaction", "1", CHAIN_ID);
    return Success(Body(filled, nonce, Keccak(Eip712Message(dom, structHash.value))));
  }

  /**
   In every prepared body the nonce is signed, sent in the envelope and sent in the action, all
   the same; the first signed word is the hash of the network's name.
   */
  lemma NonceAndChainSigned(s: Schema, action: Action, nonce: U64, isMainnet: bool)
    requires WellFormed(s)
    requires StructEncoding(s.primaryType, s.payloadTypes, Filled(action, s.timeField, nonce, isMainnet)).Success?
    ensures var filled := Filled(action, s.timeField, nonce, isMainnet);
      var enc := StructEncoding(s.primaryType, s.payloadTypes, filled).value;
      var n := |s.payloadTypes|;
      && filled[s.timeField] == Num(nonce)
      && |enc| == 32 * (1 + n)
      && enc[32 * n..32 * n + 32] == Hex.BigEndian(nonce, 32)
      && enc[32..64] == Keccak(Octets(ChainName(isMainnet)))
  {
    hide StructEncoding, Keccak, Hex.BigEndian, EncodeType, Octets, ChainName, Recognised;
    var filled := Filled(action, s.timeField, nonce, isMainnet);
    StructLayout(s.primaryType, s.payloadTypes, filled);
    TimeFieldKept(s.timeField);
    var n := |s.payloadTypes|;
    assert s.payloadTypes[n - 1] == Field(s.timeField, "uint64") && s.payloadTypes[0] == CHAIN;
    TextAndNumberTypes(filled[s.timeField], filled["hyperliquidChain"]);
  }

  lemma TimeFieldKept(t: string)
    requires t == "time" || t == "nonce"
    ensures t != "signatureChainId" && t != "hyperliquidChain"
  {
    assert |t| < 6;
  }

  lemma TextAndNumberTypes(num: Value, text: Value)
    requires num.Num? && text.Str?
    ensures Recognised("uint64") && EncodeField("uint64", num) == Success(Hex.BigEndian(num.n, 32))
    ensures Recognised("string") && EncodeField("string", text) == Success(Keccak(Octets(text.s)))
  {
  }

  /** prepareApproveAgentBody: a missing name is signed as the empty text and then left out of the action. */
  method PrepareApproveAgentBody(hasWallet: bool, isMainnet: bool, agentAddress: string, agentName: Option<string>,
      nonce: U64) returns (r: Result<Body>)
    ensures
      var base: Action := map["type" := Str("approveAgent"), "agentAddress" := Str(agentAddress),
                              "agentName" := Str(if agentName.Some? then agentName.value else "")];
      var filled := Filled(base, "nonce", nonce, isMainnet);
      && (r.Success? <==> hasWallet && Digest(APPROVE_AGENT, filled).Success?)
      && (r.Success? ==> r.value == Body(if agentName.Some? then filled else filled - {"agentName"}, nonce,
                                         Digest(APPROVE_AGENT, filled).value))
  {
    hide StructEncoding, Keccak, DomainSeparator;
    if !hasWallet {
      return Failure;
    }
    var action: Action := map["type" := Str("approveAgent"), "agentAddress" := Str(agentAddress),
                              "agentName" := Str(if agentName.Some? then agentName.value else "")];
    action := Filled(action, "nonce", nonce, isMainnet);
    var structHash := UserSignedStructHash(APPROVE_AGENT.primaryType, APPROVE_AGENT.payloadTypes, action);
    if structHash.Failure? {
      return Failure;
    }
    var digest := Keccak(Eip712Message(DomainSeparator("HyperliquidSignTransaction", "1", CHAIN_ID), structHash.value));
    if agentName.None? {
      action := action - {"agentName"};
    }
    return Success(Body(action, nonce, digest));
  }
}
