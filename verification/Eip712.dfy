/**
 User-signed actions: the struct encoding of `userSignedStructHash` in
 src/signing/SigningHelpers.cpp against the encodeType and encodeData of EIP-712.
 */
module Eip712 {
  import opened Wrappers
  import opened ActionHash
  import Hex
  import Sha3

  datatype Field = Field(name: string, typ: string)

  /** A JSON value, as far as signed fields use them. */
  datatype Value = Str(s: string) | Num(n: U64) | Boolean(b: bool)

  type Action = map<string, Value>

  predicate Recognised(typ: string) {
    typ == "string" || typ == "uint64" || typ == "uint32" || typ == "address" || typ == "bool" || typ == "bytes"
  }

  // ---- encodeType

  function Member(f: Field): string {
    f.typ + " " + f.name
  }

  function Members(fields: seq<Field>): string {
    if fields == [] then ""
    else if |fields| == 1 then Member(fields[0])
    else Members(fields[..|fields| - 1]) + "," + Member(fields[|fields| - 1])
  }

  /** encodeType: the name and the members in parentheses, separated by commas. */
  function EncodeType(name: string, fields: seq<Field>): string {
    name + "(" + Members(fields) + ")"
  }

  method TypeString(primaryType: string, payloadTypes: seq<Field>) returns (typeString: string)
    ensures typeString == EncodeType(primaryType, payloadTypes)
  {
    typeString := primaryType + "(";
    for idx := 0 to |payloadTypes|
      invariant typeString == primaryType + "(" + Members(payloadTypes[..idx])
    {
      assert payloadTypes[..idx + 1][..idx] == payloadTypes[..idx];
      if idx > 0 {
        typeString := typeString + ",";
      }
      typeString := typeString + (payloadTypes[idx].typ + " " + payloadTypes[idx].name);
    }
    assert payloadTypes[..|payloadTypes|] == payloadTypes;
    typeString := typeString + ")";
  }

  // ---- encodeData

  function Zeros(n: nat): (r: seq<Byte>)
    ensures |r| == n
  {
    seq(n, i => 0)
  }

  /** An address is right-aligned in its word; bytes of any other length leave the word zero. */
  function EncodeAddress(b: seq<Byte>): (r: seq<Byte>)
    ensures |r| == 32
  {
    if |b| == 20 then Zeros(12) + b else Zeros(32)
  }

  /** The word of one field; fails where the JSON value has another kind or is no hex text. */
  function EncodeField(typ: string, v: Value): (r: Result<seq<Byte>>)
    requires Recognised(typ)
    ensures r.Success? ==> |r.value| == 32
  {
    if typ == "string" then
      if v.Str? then Success(Keccak(Octets(v.s))) else Failure
    else if typ == "uint64" || typ == "uint32" then
      if v.Num? then Success(Hex.BigEndian(v.n, 32)) else Failure
    else if typ == "address" then
      if !v.Str? then Failure
      else
        var b :- Hex.ParsedHex(v.s);
        Success(EncodeAddress(b))
    else if typ == "bool" then
      if v.Boolean? then Success(Hex.BigEndian(if v.b then 1 else 0, 32)) else Failure
    else
      if !v.Str? then Failure
      else
        var b :- Hex.ParsedHex(v.s);
        Success(Keccak(b))
  }

  /** What one field adds. A field of a type that is not recognised leaves no word. */
  function FieldWord(f: Field, action: Action): (r: Result<seq<Byte>>)
    ensures r.Success? && Recognised(f.typ) ==> |r.value| == 32
  {
    if !Recognised(f.typ) then Success([])
    else if f.name !in action then Failure
    else EncodeField(f.typ, action[f.name])
  }

  /** The words of the fields in order. */
  function EncodeFields(fields: seq<Field>, action: Action): (r: Result<seq<Byte>>)
    ensures r.Success? && (forall f :: f in fields ==> Recognised(f.typ)) ==> |r.value| == 32 * |fields|
  {
    if fields == [] then Success([])
    else
      var front :- EncodeFields(fields[..|fields| - 1], action);
      var word :- FieldWord(fields[|fields| - 1], action);
      Success(front + word)
  }

  function StructEncoding(primaryType: string, fields: seq<Field>, action: Action): Result<seq<Byte>> {
    var words :- EncodeFields(fields, action);
    Success(Keccak(Octets(EncodeType(primaryType, fields))) + words)
  }

  /** One field's branch of the loop. */
  method EncodeOne(typ: string, v: Value) returns (r: Result<seq<Byte>>)
    requires Recognised(typ)
    ensures r == EncodeField(typ, v)
  {
    hide Hex.BigEndian, Hex.ParsedHex, Sha3.Keccak256;
    if typ == "string" {
      if !v.Str? {
        return Failure;
      }
      var valHash := Sha3.Keccak(Octets(v.s));
      return Success(valHash[..]);
    } else if typ == "uint64" || typ == "uint32" {
      if !v.Num? {
        return Failure;
      }
      var valEncoded := Hex.EncodeUint256(v.n);
      return Success(valEncoded[..]);
    } else if typ == "address" {
      if !v.Str? {
        return Failure;
      }
      var addrBytes := Hex.HexToBytes(v.s);
      if addrBytes.Failure? {
        return Failure;
      }
      return Success(EncodeAddress(addrBytes.value));
    } else if typ == "bool" {
      if !v.Boolean? {
        return Failure;
      }
      var valEncoded := Hex.EncodeUint256(if v.b then 1 else 0);
      return Success(valEncoded[..]);
    } else {
      if !v.Str? {
        return Failure;
      }
      var valBytes := Hex.HexToBytes(v.s);
      if valBytes.Failure? {
        return Failure;
      }
      var valHash := Sha3.Keccak(valBytes.value);
      return Success(valHash[..]);
    }
  }

  /** One turn of the loop. */
  method EncodeNext(field: Field, action: Action) returns (r: Result<seq<Byte>>)
    ensures r == FieldWord(field, action)
  {
    hide EncodeField, Recognised;
    if !Recognised(field.typ) {
      return Success([]);
    }
    if field.name !in action {
      return Failure;
    }
    r := EncodeOne(field.typ, action[field.name]);
  }

  method UserSignedStructHash(primaryType: string, payloadTypes: seq<Field>, action: Action)
    returns (r: Result<seq<Byte>>)
    ensures r.Success? <==> StructEncoding(primaryType, payloadTypes, action).Success?
    ensures r.Success? ==> r.value == Keccak(StructEncoding(primaryType, payloadTypes, action).value)
  {
    hide Sha3.Keccak256, FieldWord, EncodeType, EncodeFields;
    NoFields(action);
    var typeString := TypeString(primaryType, payloadTypes);
    var typeHash := Sha3.Keccak(Octets(typeString));
    var encoded: seq<Byte> := typeHash[..];
    ghost var front := encoded;
    for n := 0 to |payloadTypes|
      invariant EncodeFields(payloadTypes[..n], action).Success?
      invariant encoded == front + EncodeFields(payloadTypes[..n], action).value
    {
      OneMoreField(payloadTypes, n, action);
      var word := EncodeNext(payloadTypes[n], action);
      if word.Failure? {
        FailsEarly(payloadTypes, n + 1, action);
        return Failure;
      }
      encoded := encoded + word.value;
    }
    assert payloadTypes[..|payloadTypes|] == payloadTypes;
    var output := Sha3.Keccak(encoded);
    return Success(output[..]);
  }

  lemma NoFields(action: Action)
    ensures EncodeFields([], action) == Success([])
  {
  }

  /** One more field adds its word at the end, or makes the encoding fail. */
  lemma OneMoreField(fields: seq<Field>, n: nat, action: Action)
    requires n < |fields| && EncodeFields(fields[..n], action).Success?
    ensures EncodeFields(fields[..n + 1], action) ==
      if FieldWord(fields[n], action).Failure? then Failure
      else Success(EncodeFields(fields[..n], action).value + FieldWord(fields[n], action).value)
  {
    hide FieldWord;
    assert fields[..n + 1][..n] == fields[..n];
  }

  lemma {:induction false} FailsEarly(fields: seq<Field>, n: nat, action: Action)
    requires n <= |fields| && EncodeFields(fields[..n], action).Failure?
    ensures EncodeFields(fields, action).Failure?
  {
    if n < |fields| {
      var k := |fields| - 1;
      assert fields[..k][..n] == fields[..n];
      FailsEarly(fields[..k], n, action);
    } else {
      assert fields[..n] == fields;
    }
  }

  // ---- what the encoding says

  /** Every word is where EIP-712 puts it: word i + 1 is the encodeData of field i. */
  lemma {:induction false} WordOfField(fields: seq<Field>, action: Action, i: nat)
    requires forall f :: f in fields ==> Recognised(f.typ)
    requires EncodeFields(fields, action).Success? && i < |fields|
    ensures fields[i].name in action
    ensures EncodeField(fields[i].typ, action[fields[i].name]) ==
      Success(EncodeFields(fields, action).value[32 * i..32 * i + 32])
  {
    hide Recognised, EncodeField;
    var n := |fields| - 1;
    var words := EncodeFields(fields, action).value;
    var front := EncodeFields(fields[..n], action).value;
    assert |front| == 32 * n && words[..32 * n] == front;
    if i < n {
      WordOfField(fields[..n], action, i);
      assert words[32 * i..32 * i + 32] == front[32 * i..32 * i + 32];
    } else {
      assert words[32 * n..32 * n + 32] == EncodeField(fields[n].typ, action[fields[n].name]).value;
    }
  }

  lemma StructLayout(primaryType: string, fields: seq<Field>, action: Action)
    requires forall f :: f in fields ==> Recognised(f.typ)
    requires StructEncoding(primaryType, fields, action).Success?
    ensures var enc := StructEncoding(primaryType, fields, action).value;
      && |enc| == 32 * (1 + |fields|)
      && enc[..32] == Keccak(Octets(EncodeType(primaryType, fields)))
      && (forall i :: 0 <= i < |fields| ==>
            && fields[i].name in action
            && EncodeField(fields[i].typ, action[fields[i].name]) == Success(enc[32 * (i + 1)..32 * (i + 2)]))
  {
    hide Recognised, EncodeField, EncodeType, Keccak, EncodeFields;
    var enc := StructEncoding(primaryType, fields, action).value;
    var words := EncodeFields(fields, action).value;
    forall i | 0 <= i < |fields|
      ensures fields[i].name in action
      ensures EncodeField(fields[i].typ, action[fields[i].name]) == Success(enc[32 * (i + 1)..32 * (i + 2)])
    {
      WordOfField(fields, action, i);
      assert enc[32 * (i + 1)..32 * (i + 2)] == words[32 * i..32 * i + 32];
    }
  }

  // ---- what the encoding binds

  /** What a value contributes to a signature: text and bytes through the hash, numbers and addresses as they are. */
  predicate SameSigned(typ: string, v: Value, w: Value) {
    if typ == "string" then v.Str? && w.Str? && Octets(v.s) == Octets(w.s)
    else if typ == "address" || typ == "bytes" then
      HexText(v) && HexText(w) && Hex.ParsedHex(v.s) == Hex.ParsedHex(w.s)
    else v == w
  }

  predicate HexText(v: Value) {
    v.Str? && Hex.ParsedHex(v.s).Success?
  }

  /** The bytes whose word is zero: those of a wrong length, and the zero address. */
  predicate ZeroWord(b: seq<Byte>) {
    |b| != 20 || b == Zeros(20)
  }

  /** Exactly when two addresses sign as the same word. */
  lemma AddressesMeet(x: seq<Byte>, y: seq<Byte>)
    ensures EncodeAddress(x) == EncodeAddress(y) <==> x == y || (ZeroWord(x) && ZeroWord(y))
  {
    AddressWord(x);
    AddressWord(y);
    if !ZeroWord(x) && !ZeroWord(y) {
      assert EncodeAddress(x)[12..] == x && EncodeAddress(y)[12..] == y;
    }
  }

  lemma AddressWord(b: seq<Byte>)
    ensures EncodeAddress(b) == Zeros(32) <==> ZeroWord(b)
  {
    if |b| == 20 {
      assert Zeros(32)[12..] == Zeros(20) && Zeros(12) + Zeros(20) == Zeros(32);
      assert EncodeAddress(b)[12..] == b;
    }
  }

  predicate BothZeroWords(typ: string, v: Value, w: Value) {
    && typ == "address" && HexText(v) && HexText(w)
    && ZeroWord(Hex.ParsedHex(v.s).value) && ZeroWord(Hex.ParsedHex(w.s).value)
  }

  /** The same signed value, or two addresses whose words are both zero. */
  predicate Bound(typ: string, v: Value, w: Value) {
    SameSigned(typ, v, w) || BothZeroWords(typ, v, w)
  }

  /** No collision between what two values hand to the hash. */
  ghost predicate HashedApart(typ: string, v: Value, w: Value) {
    && (typ == "string" && v.Str? && w.Str? ==> NoCollision(Octets(v.s), Octets(w.s)))
    && (typ == "bytes" && HexText(v) && HexText(w) ==>
          NoCollision(Hex.ParsedHex(v.s).value, Hex.ParsedHex(w.s).value))
  }

  /** Exactly when two values of one type have the same word, barring collisions. */
  lemma FieldBinds(typ: string, v: Value, w: Value)
    requires Recognised(typ) && HashedApart(typ, v, w) && EncodeField(typ, v).Success?
    ensures EncodeField(typ, v) == EncodeField(typ, w) <==> Bound(typ, v, w)
  {
    hide Hex.BigEndian, Hex.ParsedHex, Hex.Pow256, Keccak, EncodeAddress, ZeroWord;
    Hex.PowIsWord();
    Hex.PowGrows(8, 32);
    if (typ == "uint64" || typ == "uint32") && w.Num? {
      Hex.ValueOfBigEndian(v.n, 32);
      Hex.ValueOfBigEndian(w.n, 32);
    } else if typ == "bool" {
      Hex.ValueOfBigEndian(0, 32);
      Hex.ValueOfBigEndian(1, 32);
    } else if typ == "address" && HexText(w) {
      AddressesMeet(Hex.ParsedHex(v.s).value, Hex.ParsedHex(w.s).value);
    }
  }

  /**
   Exactly when two actions have the same struct encoding, barring collisions: field by field
   they carry the same signed values, except where an address word is zero in both.
   */
  lemma EncodingBinds(primaryType: string, fields: seq<Field>, a: Action, b: Action)
    requires forall f :: f in fields ==> Recognised(f.typ)
    requires StructEncoding(primaryType, fields, a).Success?
    requires forall f :: f in fields && f.name in a && f.name in b ==> HashedApart(f.typ, a[f.name], b[f.name])
    ensures StructEncoding(primaryType, fields, a) == StructEncoding(primaryType, fields, b) <==>
      forall f :: f in fields ==> f.name in a && f.name in b && Bound(f.typ, a[f.name], b[f.name])
  {
    hide Recognised, EncodeField, EncodeType, Keccak, EncodeFields, StructEncoding, HashedApart, Bound;
    StructLayout(primaryType, fields, a);
    if StructEncoding(primaryType, fields, a) == StructEncoding(primaryType, fields, b) {
      StructLayout(primaryType, fields, b);
      forall f | f in fields
        ensures f.name in a && f.name in b && Bound(f.typ, a[f.name], b[f.name])
      {
        var i :| 0 <= i < |fields| && fields[i] == f;
        FieldBinds(f.typ, a[f.name], b[f.name]);
      }
    }
    if forall f :: f in fields ==> f.name in a && f.name in b && Bound(f.typ, a[f.name], b[f.name]) {
      forall i | 0 <= i < |fields|
        ensures fields[i].name in b
        ensures EncodeField(fields[i].typ, a[fields[i].name]) == EncodeField(fields[i].typ, b[fields[i].name])
      {
        FieldBinds(fields[i].typ, a[fields[i].name], b[fields[i].name]);
      }
      SameWords(fields, a, b);
      SameStruct(primaryType, fields, a, b);
    }
  }

  lemma {:induction false} SameWords(fields: seq<Field>, a: Action, b: Action)
    requires forall i :: 0 <= i < |fields| ==>
      && fields[i].name in a && fields[i].name in b
      && Recognised(fields[i].typ)
      && EncodeField(fields[i].typ, a[fields[i].name]) == EncodeField(fields[i].typ, b[fields[i].name])
    ensures EncodeFields(fields, a) == EncodeFields(fields, b)
  {
    hide Recognised, EncodeField;
    if fields != [] {
      SameWords(fields[..|fields| - 1], a, b);
    }
  }

  lemma SameStruct(primaryType: string, fields: seq<Field>, a: Action, b: Action)
    requires EncodeFields(fields, a) == EncodeFields(fields, b)
    ensures StructEncoding(primaryType, fields, a) == StructEncoding(primaryType, fields, b)
  {
  }

  /** With addresses of 20 bytes on both sides there is no exception. */
  lemma GoodAddressesBind(typ: string, v: Value, w: Value)
    requires Bound(typ, v, w) && (typ == "address" ==> AddressText(v) && AddressText(w))
    ensures SameSigned(typ, v, w)
  {
    hide Hex.ParsedHex;
  }

  predicate AddressText(v: Value) {
    HexText(v) && |Hex.ParsedHex(v.s).value| == 20
  }

  /** All hex texts of another length sign as the same zero word, and so does the zero address. */
  lemma BadAddressesCollide(v: Value, w: Value)
    requires HexText(v) && HexText(w) && !AddressText(v) && !AddressText(w)
    ensures EncodeField("address", v) == EncodeField("address", w) == Success(Zeros(32))
    ensures EncodeAddress(Zeros(20)) == Zeros(32)
  {
    hide Hex.ParsedHex;
    AddressWord(Zeros(20));
  }
}
