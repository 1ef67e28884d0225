/**
 The type text of every user-signed action, as src/signing/Signing.cpp and the exchange spell it.
 */
module TypeTexts {
  import opened Wrappers
  import opened Eip712
  import opened UserSigned

  /** One more member, behind any text in front of the members. */
  lemma MembersMore(text: string, front: seq<Field>, f: Field)
    requires front != []
    ensures text + Members(front + [f]) == text + Members(front) + "," + Member(f)
  {
    hide Member;
    assert (front + [f])[..|front|] == front;
    assert Members(front + [f]) == Members(front) + "," + Member(f);
  }

  lemma OneMember(f: Field)
    ensures Members([f]) == Member(f)
  {
  }

  lemma MemberTexts1()
    ensures Member(Field("hyperliquidChain", "string")) == "string hyperliquidChain"
    ensures Member(Field("destination", "string")) == "string destination"
  {
  }

  lemma MemberTexts2()
    ensures Member(Field("amount", "string")) == "string amount"
    ensures Member(Field("time", "uint64")) == "uint64 time"
  {
  }

  lemma MemberTexts3()
    ensures Member(Field("token", "string")) == "string token"
    ensures Member(Field("toPerp", "bool")) == "bool toPerp"
  {
  }

  lemma MemberTexts4()
    ensures Member(Field("nonce", "uint64")) == "uint64 nonce"
    ensures Member(Field("sourceDex", "string")) == "string sourceDex"
  {
  }

  lemma MemberTexts5()
    ensures Member(Field("destinationDex", "string")) == "string destinationDex"
    ensures Member(Field("fromSubAccount", "string")) == "string fromSubAccount"
  {
  }

  lemma MemberTexts6()
    ensures Member(Field("maxFeeRate", "string")) == "string maxFeeRate"
    ensures Member(Field("builder", "address")) == "address builder"
  {
  }

  lemma MemberTexts7()
    ensures Member(Field("user", "address")) == "address user"
    ensures Member(Field("abstraction", "string")) == "string abstraction"
  {
  }

  lemma MemberTexts8()
    ensures Member(Field("wei", "uint64")) == "uint64 wei"
    ensures Member(Field("validator", "address")) == "address validator"
  {
  }

  lemma MemberTexts9()
    ensures Member(Field("isUndelegate", "bool")) == "bool isUndelegate"
    ensures Member(Field("destinationRecipient", "string")) == "string destinationRecipient"
  {
  }

  lemma MemberTexts10()
    ensures Member(Field("addressEncoding", "string")) == "string addressEncoding"
    ensures Member(Field("destinationChainId", "uint32")) == "uint32 destinationChainId"
  {
  }

  lemma MemberTexts11()
    ensures Member(Field("gasLimit", "uint64")) == "uint64 gasLimit"
    ensures Member(Field("data", "bytes")) == "bytes data"
  {
  }

  lemma MemberTexts12()
    ensures Member(Field("enabled", "bool")) == "bool enabled"
    ensures Member(Field("agentAddress", "address")) == "address agentAddress"
  {
  }

  lemma MemberTexts13()
    ensures Member(Field("agentName", "string")) == "string agentName"
  {
  }

  lemma UsdSendText()
    ensures SchemaOf(UsdSend).Some?
    ensures var s := SchemaOf(UsdSend).value;
      EncodeType(s.primaryType, s.payloadTypes) ==
      "HyperliquidTransaction:UsdSend" + "(" + "string hyperliquidChain" + "," + "string destination" + "," +
      "string amount" + "," + "uint64 time" + ")"
  {
    hide Member, Members;
    MemberTexts1();
    MemberTexts2();
    var text := "HyperliquidTransaction:UsdSend" + "(";
    var f0 := [Field("hyperliquidChain", "string")];
    OneMember(f0[0]);
    var f1 := f0 + [Field("destination", "string")];
    MembersMore(text, f0, Field("destination", "string"));
    var f2 := f1 + [Field("amount", "string")];
    MembersMore(text, f1, Field("amount", "string"));
    var f3 := f2 + [Field("time", "uint64")];
    MembersMore(text, f2, Field("time", "uint64"));
    assert SchemaOf(UsdSend).value.payloadTypes == f3;
  }

  lemma Withdraw3Text()
    ensures SchemaOf(Withdraw3).Some?
    ensures var s := SchemaOf(Withdraw3).value;
      EncodeType(s.primaryType, s.payloadTypes) ==
      "HyperliquidTransaction:Withdraw" + "(" + "string hyperliquidChain" + "," + "string destination" + "," +
      "string amount" + "," + "uint64 time" + ")"
  {
    hide Member, Members;
    MemberTexts1();
    MemberTexts2();
    var text := "HyperliquidTransaction:Withdraw" + "(";
    var f0 := [Field("hyperliquidChain", "string")];
    OneMember(f0[0]);
    var f1 := f0 + [Field("destination", "string")];
    MembersMore(text, f0, Field("destination", "string"));
    var f2 := f1 + [Field("amount", "string")];
    MembersMore(text, f1, Field("amount", "string"));
    var f3 := f2 + [Field("time", "uint64")];
    MembersMore(text, f2, Field("time", "uint64"));
    assert SchemaOf(Withdraw3).value.payloadTypes == f3;
  }

  lemma SpotSendText()
    ensures SchemaOf(SpotSend).Some?
    ensures var s := SchemaOf(SpotSend).value;
      EncodeType(s.primaryType, s.payloadTypes) ==
      "HyperliquidTransaction:SpotSend" + "(" + "string hyperliquidChain" + "," + "string destination" + "," +
      "string token" + "," + "string amount" + "," + "uint64 time" + ")"
  {
    hide Member, Members;
    MemberTexts1();
    MemberTexts2();
    MemberTexts3();
    var text := "HyperliquidTransaction:SpotSend" + "(";
    var f0 := [Field("hyperliquidChain", "string")];
    OneMember(f0[0]);
    var f1 := f0 + [Field("destination", "string")];
    MembersMore(text, f0, Field("destination", "string"));
    var f2 := f1 + [Field("token", "string")];
    MembersMore(text, f1, Field("token", "string"));
    var f3 := f2 + [Field("amount", "string")];
    MembersMore(text, f2, Field("amount", "string"));
    var f4 := f3 + [Field("time", "uint64")];
    MembersMore(text, f3, Field("time", "uint64"));
    assert SchemaOf(SpotSend).value.payloadTypes == f4;
  }

  lemma UsdClassTransferText()
    ensures SchemaOf(UsdClassTransfer).Some?
    ensures var s := SchemaOf(UsdClassTransfer).value;
      EncodeType(s.primaryType, s.payloadTypes) ==
      "HyperliquidTransaction:UsdClassTransfer" + "(" + "string hyperliquidChain" + "," + "string amount" + "," +
      "bool toPerp" + "," + "uint64 nonce" + ")"
  {
    hide Member, Members;
    MemberTexts1();
    MemberTexts2();
    MemberTexts3();
    MemberTexts4();
    var text := "HyperliquidTransaction:UsdClassTransfer" + "(";
    var f0 := [Field("hyperliquidChain", "string")];
    OneMember(f0[0]);
    var f1 := f0 + [Field("amount", "string")];
    MembersMore(text, f0, Field("amount", "string"));
    var f2 := f1 + [Field("toPerp", "bool")];
    MembersMore(text, f1, Field("toPerp", "bool"));
    var f3 := f2 + [Field("nonce", "uint64")];
    MembersMore(text, f2, Field("nonce", "uint64"));
    assert SchemaOf(UsdClassTransfer).value.payloadTypes == f3;
  }

  lemma SendAssetText()
    ensures SchemaOf(SendAsset).Some?
    ensures var s := SchemaOf(SendAsset).value;
      EncodeType(s.primaryType, s.payloadTypes) ==
      "HyperliquidTransaction:SendAsset" + "(" + "string hyperliquidChain" + "," + "string destination" + "," +
      "string sourceDex" + "," + "string destinationDex" + "," + "string token" + "," + "string amount" + "," +
      "string fromSubAccount" + "," + "uint64 nonce" + ")"
  {
    hide Member, Members;
    MemberTexts1();
    MemberTexts2();
    MemberTexts3();
    MemberTexts4();
    MemberTexts5();
    var text := "HyperliquidTransaction:SendAsset" + "(";
    var f0 := [Field("hyperliquidChain", "string")];
    OneMember(f0[0]);
    var f1 := f0 + [Field("destination", "string")];
    MembersMore(text, f0, Field("destination", "string"));
    var f2 := f1 + [Field("sourceDex", "string")];
    MembersMore(text, f1, Field("sourceDex", "string"));
    var f3 := f2 + [Field("destinationDex", "string")];
    MembersMore(text, f2, Field("destinationDex", "string"));
    var f4 := f3 + [Field("token", "string")];
    MembersMore(text, f3, Field("token", "string"));
    var f5 := f4 + [Field("amount", "string")];
    MembersMore(text, f4, Field("amount", "string"));
    var f6 := f5 + [Field("fromSubAccount", "string")];
    MembersMore(text, f5, Field("fromSubAccount", "string"));
    var f7 := f6 + [Field("nonce", "uint64")];
    MembersMore(text, f6, Field("nonce", "uint64"));
    assert SchemaOf(SendAsset).value.payloadTypes == f7;
  }

  lemma ApproveBuilderFeeText()
    ensures SchemaOf(ApproveBuilderFee).Some?
    ensures var s := SchemaOf(ApproveBuilderFee).value;
      EncodeType(s.primaryType, s.payloadTypes) ==
      "HyperliquidTransaction:ApproveBuilderFee" + "(" + "string hyperliquidChain" + "," + "string maxFeeRate" + "," +
      "address builder" + "," + "uint64 nonce" + ")"
  {
    hide Member, Members;
    MemberTexts1();
    MemberTexts4();
    MemberTexts6();
    var text := "HyperliquidTransaction:ApproveBuilderFee" + "(";
    var f0 := [Field("hyperliquidChain", "string")];
    OneMember(f0[0]);
    var f1 := f0 + [Field("maxFeeRate", "string")];
    MembersMore(text, f0, Field("maxFeeRate", "string"));
    var f2 := f1 + [Field("builder", "address")];
    MembersMore(text, f1, Field("builder", "address"));
    var f3 := f2 + [Field("nonce", "uint64")];
    MembersMore(text, f2, Field("nonce", "uint64"));
    assert SchemaOf(ApproveBuilderFee).value.payloadTypes == f3;
  }

  lemma UserSetAbstractionText()
    ensures SchemaOf(UserSetAbstraction).Some?
    ensures var s := SchemaOf(UserSetAbstraction).value;
      EncodeType(s.primaryType, s.payloadTypes) ==
      "HyperliquidTransaction:UserSetAbstraction" + "(" + "string hyperliquidChain" + "," + "address user" + "," +
      "string abstraction" + "," + "uint64 nonce" + ")"
  {
    hide Member, Members;
    MemberTexts1();
    MemberTexts4();
    MemberTexts7();
    var text := "HyperliquidTransaction:UserSetAbstraction" + "(";
    var f0 := [Field("hyperliquidChain", "string")];
    OneMember(f0[0]);
    var f1 := f0 + [Field("user", "address")];
    MembersMore(text, f0, Field("user", "address"));
    var f2 := f1 + [Field("abstraction", "string")];
    MembersMore(text, f1, Field("abstraction", "string"));
    var f3 := f2 + [Field("nonce", "uint64")];
    MembersMore(text, f2, Field("nonce", "uint64"));
    assert SchemaOf(UserSetAbstraction).value.payloadTypes == f3;
  }

  lemma CDepositText()
    ensures SchemaOf(CDeposit).Some?
    ensures var s := SchemaOf(CDeposit).value;
      EncodeType(s.primaryType, s.payloadTypes) ==
      "HyperliquidTransaction:CDeposit" + "(" + "string hyperliquidChain" + "," + "uint64 wei" + "," +
      "uint64 nonce" + ")"
  {
    hide Member, Members;
    MemberTexts1();
    MemberTexts4();
    MemberTexts8();
    var text := "HyperliquidTransaction:CDeposit" + "(";
    var f0 := [Field("hyperliquidChain", "string")];
    OneMember(f0[0]);
    var f1 := f0 + [Field("wei", "uint64")];
    MembersMore(text, f0, Field("wei", "uint64"));
    var f2 := f1 + [Field("nonce", "uint64")];
    MembersMore(text, f1, Field("nonce", "uint64"));
    assert SchemaOf(CDeposit).value.payloadTypes == f2;
  }

  lemma CWithdrawText()
    ensures SchemaOf(CWithdraw).Some?
    ensures var s := SchemaOf(CWithdraw).value;
      EncodeType(s.primaryType, s.payloadTypes) ==
      "HyperliquidTransaction:CWithdraw" + "(" + "string hyperliquidChain" + "," + "uint64 wei" + "," +
      "uint64 nonce" + ")"
  {
    hide Member, Members;
    MemberTexts1();
    MemberTexts4();
    MemberTexts8();
    var text := "HyperliquidTransaction:CWithdraw" + "(";
    var f0 := [Field("hyperliquidChain", "string")];
    OneMember(f0[0]);
    var f1 := f0 + [Field("wei", "uint64")];
    MembersMore(text, f0, Field("wei", "uint64"));
    var f2 := f1 + [Field("nonce", "uint64")];
    MembersMore(text, f1, Field("nonce", "uint64"));
    assert SchemaOf(CWithdraw).value.payloadTypes == f2;
  }

  lemma TokenDelegateText()
    ensures SchemaOf(TokenDelegate).Some?
    ensures var s := SchemaOf(TokenDelegate).value;
      EncodeType(s.primaryType, s.payloadTypes) ==
      "HyperliquidTransaction:TokenDelegate" + "(" + "string hyperliquidChain" + "," + "address validator" + "," +
      "uint64 wei" + "," + "bool isUndelegate" + "," + "uint64 nonce" + ")"
  {
    hide Member, Members;
    MemberTexts1();
    MemberTexts4();
    MemberTexts8();
    MemberTexts9();
    var text := "HyperliquidTransaction:TokenDelegate" + "(";
    var f0 := [Field("hyperliquidChain", "string")];
    OneMember(f0[0]);
    var f1 := f0 + [Field("validator", "address")];
    MembersMore(text, f0, Field("validator", "address"));
    var f2 := f1 + [Field("wei", "uint64")];
    MembersMore(text, f1, Field("wei", "uint64"));
    var f3 := f2 + [Field("isUndelegate", "bool")];
    MembersMore(text, f2, Field("isUndelegate", "bool"));
    var f4 := f3 + [Field("nonce", "uint64")];
    MembersMore(text, f3, Field("nonce", "uint64"));
    assert SchemaOf(TokenDelegate).value.payloadTypes == f4;
  }

  lemma SendToEvmWithDataText()
    ensures SchemaOf(SendToEvmWithData).Some?
    ensures var s := SchemaOf(SendToEvmWithData).value;
      EncodeType(s.primaryType, s.payloadTypes) ==
      "HyperliquidTransaction:SendToEvmWithData" + "(" + "string hyperliquidChain" + "," + "string token" + "," +
      "string amount" + "," + "string sourceDex" + "," + "string destinationRecipient" + "," +
      "string addressEncoding" + "," + "uint32 destinationChainId" + "," + "uint64 gasLimit" + "," + "bytes data" +
      "," + "uint64 nonce" + ")"
  {
    hide Member, Members;
    MemberTexts1();
    MemberTexts2();
    MemberTexts3();
    MemberTexts4();
    MemberTexts9();
    MemberTexts10();
    MemberTexts11();
    var text := "HyperliquidTransaction:SendToEvmWithData" + "(";
    var f0 := [Field("hyperliquidChain", "string")];
    OneMember(f0[0]);
    var f1 := f0 + [Field("token", "string")];
    MembersMore(text, f0, Field("token", "string"));
    var f2 := f1 + [Field("amount", "string")];
    MembersMore(text, f1, Field("amount", "string"));
    var f3 := f2 + [Field("sourceDex", "string")];
    MembersMore(text, f2, Field("sourceDex", "string"));
    var f4 := f3 + [Field("destinationRecipient", "string")];
    MembersMore(text, f3, Field("destinationRecipient", "string"));
    var f5 := f4 + [Field("addressEncoding", "string")];
    MembersMore(text, f4, Field("addressEncoding", "string"));
    var f6 := f5 + [Field("destinationChainId", "uint32")];
    MembersMore(text, f5, Field("destinationChainId", "uint32"));
    var f7 := f6 + [Field("gasLimit", "uint64")];
    MembersMore(text, f6, Field("gasLimit", "uint64"));
    var f8 := f7 + [Field("data", "bytes")];
    MembersMore(text, f7, Field("data", "bytes"));
    var f9 := f8 + [Field("nonce", "uint64")];
    MembersMore(text, f8, Field("nonce", "uint64"));
    assert SchemaOf(SendToEvmWithData).value.payloadTypes == f9;
  }

  lemma UserDexAbstractionText()
    ensures SchemaOf(UserDexAbstraction).Some?
    ensures var s := SchemaOf(UserDexAbstraction).value;
      EncodeType(s.primaryType, s.payloadTypes) ==
      "HyperliquidTransaction:UserDexAbstraction" + "(" + "string hyperliquidChain" + "," + "address user" + "," +
      "bool enabled" + "," + "uint64 nonce" + ")"
  {
    hide Member, Members;
    MemberTexts1();
    MemberTexts4();
    MemberTexts7();
    MemberTexts12();
    var text := "HyperliquidTransaction:UserDexAbstraction" + "(";
    var f0 := [Field("hyperliquidChain", "string")];
    OneMember(f0[0]);
    var f1 := f0 + [Field("user", "address")];
    MembersMore(text, f0, Field("user", "address"));
    var f2 := f1 + [Field("enabled", "bool")];
    MembersMore(text, f1, Field("enabled", "bool"));
    var f3 := f2 + [Field("nonce", "uint64")];
    MembersMore(text, f2, Field("nonce", "uint64"));
    assert SchemaOf(UserDexAbstraction).value.payloadTypes == f3;
  }

  lemma UserPortfolioMarginText()
    ensures SchemaOf(UserPortfolioMargin).Some?
    ensures var s := SchemaOf(UserPortfolioMargin).value;
      EncodeType(s.primaryType, s.payloadTypes) ==
      "HyperliquidTransaction:UserPortfolioMargin" + "(" + "string hyperliquidChain" + "," + "address user" + "," +
      "bool enabled" + "," + "uint64 nonce" + ")"
  {
    hide Member, Members;
    MemberTexts1();
    MemberTexts4();
    MemberTexts7();
    MemberTexts12();
    var text := "HyperliquidTransaction:UserPortfolioMargin" + "(";
    var f0 := [Field("hyperliquidChain", "string")];
    OneMember(f0[0]);
    var f1 := f0 + [Field("user", "address")];
    MembersMore(text, f0, Field("user", "address"));
    var f2 := f1 + [Field("enabled", "bool")];
    MembersMore(text, f1, Field("enabled", "bool"));
    var f3 := f2 + [Field("nonce", "uint64")];
    MembersMore(text, f2, Field("nonce", "uint64"));
    assert SchemaOf(UserPortfolioMargin).value.payloadTypes == f3;
  }

  lemma ApproveAgentText()
    ensures EncodeType(APPROVE_AGENT.primaryType, APPROVE_AGENT.payloadTypes) ==
      "HyperliquidTransaction:ApproveAgent" + "(" + "string hyperliquidChain" + "," + "address agentAddress" + "," +
      "string agentName" + "," + "uint64 nonce" + ")"
  {
    hide Member, Members;
    MemberTexts1();
    MemberTexts4();
    MemberTexts12();
    MemberTexts13();
    var text := "HyperliquidTransaction:ApproveAgent" + "(";
    var f0 := [Field("hyperliquidChain", "string")];
    OneMember(f0[0]);
    var f1 := f0 + [Field("agentAddress", "address")];
    MembersMore(text, f0, Field("agentAddress", "address"));
    var f2 := f1 + [Field("agentName", "string")];
    MembersMore(text, f1, Field("agentName", "string"));
    var f3 := f2 + [Field("nonce", "uint64")];
    MembersMore(text, f2, Field("nonce", "uint64"));
    assert APPROVE_AGENT.payloadTypes == f3;
  }
}
