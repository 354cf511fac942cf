/**
 The wallet-messaging protocol, version "0": the five message kinds, the
 validator that turns an untrusted value into a message, and the record a
 message is encoded as.
 */
module MessageCodec {
  import opened JsonValue
  import opened Utils

  const Version0: string := "0"

  const RequestAddressType: string := "requestAddress"
  const RequestExtendedPublicKeyType: string := "requestExtendedPublicKey"
  const VerifyAddressType: string := "verifyAddress"
  const AddressType: string := "address"
  const ExtendedPublicKeyType: string := "extendedPublicKey"

  /** The message types of version "0", in declaration order. */
  const MessageTypes: seq<string> :=
    [RequestAddressType, RequestExtendedPublicKeyType, VerifyAddressType, AddressType, ExtendedPublicKeyType]

  /** The script types, in declaration order. */
  const ScriptTypeNames: seq<string> := ["p2pkh", "p2wpkh", "p2sh", "p2tr"]

  // The messages of the errors the validator throws.
  const ErrNotJson: string := "could not parse as json"
  const ErrNotAnObject: string := "not an object"
  const ErrInvalidType: string := "invalid type"
  const ErrSignatureIndicator: string := "message signature indicator invalid"
  const ErrKeyIndicator: string := "extended public key indicator invalid"
  const ErrScriptTypeIndicator: string := "script type indicator invalid"
  const ErrAddressMissing: string := "bitcoin address missing"
  const ErrSignature: string := "signature invalid"
  const ErrKey: string := "extended public key invalid"
  const ErrKeyMissing: string := "extended public key missing"
  const ErrUnsupportedType: string := "unsupported type"
  const ErrUnsupportedVersion: string := "unsupported version"

  datatype ScriptType = P2pkh | P2wpkh | P2sh | P2tr

  function ScriptTypeName(t: ScriptType): (name: string)
    ensures name in ScriptTypeNames
  {
    match t
    case P2pkh => "p2pkh"
    case P2wpkh => "p2wpkh"
    case P2sh => "p2sh"
    case P2tr => "p2tr"
  }

  /** The script type a validated name stands for. */
  function ScriptTypeOf(name: string): (t: ScriptType)
    requires name in ScriptTypeNames
    ensures ScriptTypeName(t) == name
  {
    if name == "p2pkh" then P2pkh
    else if name == "p2wpkh" then P2wpkh
    else if name == "p2sh" then P2sh
    else P2tr
  }

  /** An optional field: left out (or `undefined`), `null`, or a value. */
  datatype Opt<+T> = Absent | Null | Val(value: T)

  datatype Message =
    | RequestAddress(withMessageSignature: Opt<string>, withExtendedPublicKey: Opt<bool>,
                     withScriptType: Opt<ScriptType>)
    | RequestExtendedPublicKey(withScriptType: Opt<ScriptType>)
    | VerifyAddress(bitcoinAddress: string)
    | Address(bitcoinAddress: string, signature: Opt<string>, extendedPublicKey: Opt<string>)
      /** `key` travels under the name "extendedPublicKey". */
    | ExtendedPublicKey(key: string)

  function TypeName(m: Message): (t: string)
    ensures t in MessageTypes
  {
    match m
    case RequestAddress(_, _, _) => RequestAddressType
    case RequestExtendedPublicKey(_) => RequestExtendedPublicKeyType
    case VerifyAddress(_) => VerifyAddressType
    case Address(_, _, _) => AddressType
    case ExtendedPublicKey(_) => ExtendedPublicKeyType
  }

  // Encoding of optional fields; an absent field is a key holding `undefined`.

  function StringField(o: Opt<string>): Json {
    match o
    case Absent => JUndef
    case Null => JNull
    case Val(s) => JStr(s)
  }

  function BoolField(o: Opt<bool>): Json {
    match o
    case Absent => JUndef
    case Null => JNull
    case Val(b) => JBool(b)
  }

  function ScriptTypeField(o: Opt<ScriptType>): Json {
    match o
    case Absent => JUndef
    case Null => JNull
    case Val(t) => JStr(ScriptTypeName(t))
  }

  // Decoding of fields that passed their guard: the field's state is kept.

  function OptString(field: Json): (o: Opt<string>)
    requires IsString(field) || IsNullish(field)
    ensures StringField(o) == field
  {
    if field.JStr? then Val(field.s) else if field.JNull? then Null else Absent
  }

  function OptBool(field: Json): (o: Opt<bool>)
    requires IsBoolean(field) || IsNullish(field)
    ensures BoolField(o) == field
  {
    if field.JBool? then Val(field.b) else if field.JNull? then Null else Absent
  }

  function OptScriptType(field: Json): (o: Opt<ScriptType>)
    requires IsOneOf(field, ScriptTypeNames) || IsNullish(field)
    ensures ScriptTypeField(o) == field
  {
    if field.JStr? then Val(ScriptTypeOf(field.s)) else if field.JNull? then Null else Absent
  }

  /**
   The record a message is: `version`, `type` and exactly the fields of its
   kind, as the validator returns it and as it is serialised.
   */
  function Fields(m: Message): (record: map<string, Json>)
    ensures "version" in record && record["version"] == JStr(Version0)
    ensures "type" in record && record["type"] == JStr(TypeName(m))
  {
    var header := map["version" := JStr(Version0), "type" := JStr(TypeName(m))];
    match m
    case RequestAddress(signature, key, scriptType) =>
      header["withMessageSignature" := StringField(signature)]
            ["withExtendedPublicKey" := BoolField(key)]
            ["withScriptType" := ScriptTypeField(scriptType)]
    case RequestExtendedPublicKey(scriptType) =>
      header["withScriptType" := ScriptTypeField(scriptType)]
    case VerifyAddress(address) =>
      header["bitcoinAddress" := JStr(address)]
    case Address(address, signature, key) =>
      header["bitcoinAddress" := JStr(address)]
            ["signature" := StringField(signature)]
            ["extendedPublicKey" := StringField(key)]
    case ExtendedPublicKey(key) =>
      header["extendedPublicKey" := JStr(key)]
  }

  function ToJson(m: Message): (j: Json)
    ensures j.JObj? && IsObject(j)
  {
    JObj(Fields(m))
  }

  /**
   `serializeMessage`: the text `stringify` (`JSON.stringify`, which the model
   does not look into) makes of a record that validates as `m` again.
   */
  function SerializeMessage(m: Message, stringify: Json -> string): (text: string)
    ensures exists record :: text == stringify(record) && ParseValue(record) == Ok(m)
  {
    RoundTrip(m);
    stringify(ToJson(m))
  }

  /** The five type names are pairwise different, so the dispatch on them is unambiguous. */
  lemma TypeNamesDistinct()
    ensures RequestAddressType != RequestExtendedPublicKeyType && RequestAddressType != VerifyAddressType
    ensures RequestAddressType != AddressType && RequestAddressType != ExtendedPublicKeyType
    ensures RequestExtendedPublicKeyType != VerifyAddressType && RequestExtendedPublicKeyType != AddressType
    ensures RequestExtendedPublicKeyType != ExtendedPublicKeyType && VerifyAddressType != AddressType
    ensures VerifyAddressType != ExtendedPublicKeyType && AddressType != ExtendedPublicKeyType
  {
    assert |RequestAddressType| == 14 && |RequestExtendedPublicKeyType| == 24 && |VerifyAddressType| == 13
      && |AddressType| == 7 && |ExtendedPublicKeyType| == 17;
  }

  // The per-kind field guards, in the order the source checks them.

  function ParseRequestAddress(input: Json): (r: Result<Message>)
    ensures r.Ok? <==> Admits(StringOrNullish, Get(input, "withMessageSignature"))
                       && Admits(BooleanOrNullish, Get(input, "withExtendedPublicKey"))
                       && Admits(ScriptTypeOrNullish, Get(input, "withScriptType"))
    ensures r.Ok? ==> r.value.RequestAddress?
                      && StringField(r.value.withMessageSignature) == Get(input, "withMessageSignature")
                      && BoolField(r.value.withExtendedPublicKey) == Get(input, "withExtendedPublicKey")
                      && ScriptTypeField(r.value.withScriptType) == Get(input, "withScriptType")
  {
    var withMessageSignature := Get(input, "withMessageSignature");
    if !IsString(withMessageSignature) && !IsNullish(withMessageSignature) then Err(ErrSignatureIndicator)
    else
      var withExtendedPublicKey := Get(input, "withExtendedPublicKey");
      if !IsBoolean(withExtendedPublicKey) && !IsNullish(withExtendedPublicKey) then Err(ErrKeyIndicator)
      else
        var withScriptType := Get(input, "withScriptType");
        if !IsOneOf(withScriptType, ScriptTypeNames) && !IsNullish(withScriptType) then Err(ErrScriptTypeIndicator)
        else Ok(RequestAddress(OptString(withMessageSignature), OptBool(withExtendedPublicKey),
                               OptScriptType(withScriptType)))
  }

  function ParseRequestExtendedPublicKey(input: Json): (r: Result<Message>)
    ensures r.Ok? <==> Admits(ScriptTypeOrNullish, Get(input, "withScriptType"))
    ensures r.Err? ==> r.error == ErrScriptTypeIndicator
    ensures r.Ok? ==> r.value.RequestExtendedPublicKey?
                      && ScriptTypeField(r.value.withScriptType) == Get(input, "withScriptType")
  {
    var withScriptType := Get(input, "withScriptType");
    if !IsOneOf(withScriptType, ScriptTypeNames) && !IsNullish(withScriptType) then Err(ErrScriptTypeIndicator)
    else Ok(RequestExtendedPublicKey(OptScriptType(withScriptType)))
  }

  function ParseVerifyAddress(input: Json): (r: Result<Message>)
    ensures r.Ok? <==> Get(input, "bitcoinAddress").JStr?
    ensures r.Err? ==> r.error == ErrAddressMissing
    ensures r.Ok? ==> r.value.VerifyAddress? && Get(input, "bitcoinAddress") == JStr(r.value.bitcoinAddress)
  {
    var bitcoinAddress := Get(input, "bitcoinAddress");
    if !IsString(bitcoinAddress) then Err(ErrAddressMissing)
    else Ok(VerifyAddress(bitcoinAddress.s))
  }

  function ParseAddress(input: Json): (r: Result<Message>)
    ensures r.Ok? <==> Admits(RequiredString, Get(input, "bitcoinAddress"))
                       && Admits(StringOrNullish, Get(input, "signature"))
                       && Admits(StringOrNullish, Get(input, "extendedPublicKey"))
    ensures r.Ok? ==> r.value.Address?
                      && Get(input, "bitcoinAddress") == JStr(r.value.bitcoinAddress)
                      && StringField(r.value.signature) == Get(input, "signature")
                      && StringField(r.value.extendedPublicKey) == Get(input, "extendedPublicKey")
  {
    var bitcoinAddress := Get(input, "bitcoinAddress");
    if !IsString(bitcoinAddress) then Err(ErrAddressMissing)
    else
      var signature := Get(input, "signature");
      if !IsString(signature) && !IsNullish(signature) then Err(ErrSignature)
      else
        var extendedPublicKey := Get(input, "extendedPublicKey");
        if !IsString(extendedPublicKey) && !IsNullish(extendedPublicKey) then Err(ErrKey)
        else Ok(Address(bitcoinAddress.s, OptString(signature), OptString(extendedPublicKey)))
  }

  function ParseExtendedPublicKey(input: Json): (r: Result<Message>)
    ensures r.Ok? <==> Get(input, "extendedPublicKey").JStr?
    ensures r.Err? ==> r.error == ErrKeyMissing
    ensures r.Ok? ==> r.value.ExtendedPublicKey? && Get(input, "extendedPublicKey") == JStr(r.value.key)
  {
    var extendedPublicKey := Get(input, "extendedPublicKey");
    if !IsString(extendedPublicKey) then Err(ErrKeyMissing)
    else Ok(ExtendedPublicKey(extendedPublicKey.s))
  }

  /** The dispatch on the message type to that type's field guards. */
  function ParseFields(messageType: Json, input: Json): (r: Result<Message>)
    ensures r.Ok? ==> messageType == JStr(TypeName(r.value))
    ensures messageType.JStr? && messageType.s in MessageTypes ==> r != Err(ErrUnsupportedType)
  {
    if messageType == JStr(RequestAddressType) then ParseRequestAddress(input)
    else if messageType == JStr(RequestExtendedPublicKeyType) then ParseRequestExtendedPublicKey(input)
    else if messageType == JStr(VerifyAddressType) then ParseVerifyAddress(input)
    else if messageType == JStr(AddressType) then ParseAddress(input)
    else if messageType == JStr(ExtendedPublicKeyType) then ParseExtendedPublicKey(input)
    else Err(ErrUnsupportedType)
  }

  /**
   The validator on an already structured value: object, then version, then
   type, then the fields of that type.
   */
  function ParseValue(input: Json): (r: Result<Message>)
    ensures !input.JObj? && !input.JArr? ==> r == Err(ErrNotAnObject)
    ensures (input.JObj? || input.JArr?) && Get(input, "version") != JStr(Version0)
            ==> r == Err(ErrUnsupportedVersion)
    ensures Get(input, "version") == JStr(Version0) && !(Get(input, "type").JStr? && Get(input, "type").s in MessageTypes)
            ==> r == Err(ErrInvalidType)
    ensures r != Err(ErrUnsupportedType) && r != Err(ErrNotJson)
    ensures r.Ok? ==> Get(input, "version") == JStr(Version0) && Get(input, "type") == JStr(TypeName(r.value))
  {
    if !IsObject(input) then Err(ErrNotAnObject)
    else
      var version := Get(input, "version");
      if IsLiteral(version, Version0) then
        var messageType := Get(input, "type");
        if !IsOneOf(messageType, MessageTypes) then Err(ErrInvalidType)
        else ParseFields(messageType, input)
      else Err(ErrUnsupportedVersion)
  }

  /**
   `parseMessage`: text is first decoded with `jsonParse` (None when it is not
   JSON); any other value is validated as it is.
   */
  function ParseMessage(value: Json, jsonParse: string -> Option<Json>): (r: Result<Message>)
    ensures !value.JStr? ==> r == ParseValue(value)
    ensures value.JStr? ==> (r == Err(ErrNotJson) <==> jsonParse(value.s).None?)
    ensures value.JStr? && jsonParse(value.s).Some? ==> r == ParseValue(jsonParse(value.s).value)
  {
    if value.JStr? then
      match jsonParse(value.s)
      case None => Err(ErrNotJson)
      case Some(input) => ParseValue(input)
    else ParseValue(value)
  }

  // ---------------------------------------------------------------------------
  // The field table: which states each field of each kind accepts, in order.

  datatype Policy = StringOrNullish | BooleanOrNullish | ScriptTypeOrNullish | RequiredString

  predicate Admits(policy: Policy, field: Json) {
    match policy
    case StringOrNullish => field.JStr? || field.JNull? || field.JUndef?
    case BooleanOrNullish => field.JBool? || field.JNull? || field.JUndef?
    case ScriptTypeOrNullish => (field.JStr? && field.s in ScriptTypeNames) || field.JNull? || field.JUndef?
    case RequiredString => field.JStr?
  }

  datatype FieldRule = FieldRule(key: string, policy: Policy, error: string)

  function FieldRules(messageType: string): seq<FieldRule> {
    if messageType == RequestAddressType then
      [FieldRule("withMessageSignature", StringOrNullish, ErrSignatureIndicator),
       FieldRule("withExtendedPublicKey", BooleanOrNullish, ErrKeyIndicator),
       FieldRule("withScriptType", ScriptTypeOrNullish, ErrScriptTypeIndicator)]
    else if messageType == RequestExtendedPublicKeyType then
      [FieldRule("withScriptType", ScriptTypeOrNullish, ErrScriptTypeIndicator)]
    else if messageType == VerifyAddressType then
      [FieldRule("bitcoinAddress", RequiredString, ErrAddressMissing)]
    else if messageType == AddressType then
      [FieldRule("bitcoinAddress", RequiredString, ErrAddressMissing),
       FieldRule("signature", StringOrNullish, ErrSignature),
       FieldRule("extendedPublicKey", StringOrNullish, ErrKey)]
    else if messageType == ExtendedPublicKeyType then
      [FieldRule("extendedPublicKey", RequiredString, ErrKeyMissing)]
    else []
  }

  function RuleViolation(input: Json, rule: FieldRule): Option<string> {
    if Admits(rule.policy, Get(input, rule.key)) then None else Some(rule.error)
  }

  function RuleKeys(rules: seq<FieldRule>): set<string> {
    set i | 0 <= i < |rules| :: rules[i].key
  }

  function RuleCheck(input: Json): FieldRule -> Option<string> {
    rule => RuleViolation(input, rule)
  }

  // ---------------------------------------------------------------------------
  // Properties.

  /**
   Past the discriminators, the error reported is that of the first field,
   in table order, whose value the table does not admit; when every field is
   admitted the message is accepted.
   */
  lemma FieldErrorsFollowTable(input: Json)
    requires IsObject(input) && Get(input, "version") == JStr(Version0)
    requires Get(input, "type").JStr? && Get(input, "type").s in MessageTypes
    ensures FirstFailure(FieldRules(Get(input, "type").s), RuleCheck(input)) == ErrorOf(ParseValue(input))
  {
    var t := Get(input, "type").s;
    assert ParseValue(input) == ParseFields(JStr(t), input);
    TypeNamesDistinct();
    if t == RequestAddressType {
      RequestAddressFollowsTable(input);
    } else if t == RequestExtendedPublicKeyType {
      SingleRuleFollowsTable(input, t);
    } else if t == VerifyAddressType {
      SingleRuleFollowsTable(input, t);
    } else if t == AddressType {
      AddressFollowsTable(input);
    } else {
      SingleRuleFollowsTable(input, t);
    }
  }

  lemma RequestAddressFollowsTable(input: Json)
    ensures FirstFailure(FieldRules(RequestAddressType), RuleCheck(input)) == ErrorOf(ParseRequestAddress(input))
  {
    var rules := FieldRules(RequestAddressType);
    FirstFailureOfThree(rules[0], rules[1], rules[2], RuleCheck(input));
    assert rules == [rules[0], rules[1], rules[2]];
  }

  lemma AddressFollowsTable(input: Json)
    ensures FirstFailure(FieldRules(AddressType), RuleCheck(input)) == ErrorOf(ParseAddress(input))
  {
    TypeNamesDistinct();
    var rules := FieldRules(AddressType);
    FirstFailureOfThree(rules[0], rules[1], rules[2], RuleCheck(input));
    assert rules == [rules[0], rules[1], rules[2]];
  }

  lemma SingleRuleFollowsTable(input: Json, t: string)
    requires t in {RequestExtendedPublicKeyType, VerifyAddressType, ExtendedPublicKeyType}
    ensures FirstFailure(FieldRules(t), RuleCheck(input)) == ErrorOf(ParseFields(JStr(t), input))
  {
    TypeNamesDistinct();
    var rules := FieldRules(t);
    FirstFailureOfOne(rules[0], RuleCheck(input));
    assert rules == [rules[0]];
  }

  /** A message's record is the header plus exactly the table's keys, each admitted. */
  lemma FieldsFollowTable(m: Message)
    ensures Fields(m).Keys == {"version", "type"} + RuleKeys(FieldRules(TypeName(m)))
    ensures forall rule :: rule in FieldRules(TypeName(m)) ==> rule.key in Fields(m) && Admits(rule.policy, Fields(m)[rule.key])
  {
    var rules := FieldRules(TypeName(m));
    if m.RequestAddress? || m.Address? {
      ThreeFieldKinds(m);
      RuleKeysOfThree(rules);
      assert forall rule :: rule in rules ==> rule == rules[0] || rule == rules[1] || rule == rules[2];
    } else {
      OneFieldKinds(m);
      RuleKeysOfOne(rules);
      assert forall rule :: rule in rules ==> rule == rules[0];
    }
  }

  lemma ThreeFieldKinds(m: Message)
    requires m.RequestAddress? || m.Address?
    ensures var rules := FieldRules(TypeName(m));
      && |rules| == 3
      && Fields(m).Keys == {"version", "type", rules[0].key, rules[1].key, rules[2].key}
      && (forall i :: 0 <= i < 3 ==> rules[i].key in Fields(m) && Admits(rules[i].policy, Fields(m)[rules[i].key]))
  {
    TypeNamesDistinct();
    if m.RequestAddress? {
      OptScriptTypeInverse(m.withScriptType);
    }
  }

  lemma OneFieldKinds(m: Message)
    requires !m.RequestAddress? && !m.Address?
    ensures var rules := FieldRules(TypeName(m));
      && |rules| == 1
      && Fields(m).Keys == {"version", "type", rules[0].key}
      && rules[0].key in Fields(m) && Admits(rules[0].policy, Fields(m)[rules[0].key])
  {
    TypeNamesDistinct();
    if m.RequestExtendedPublicKey? {
      OptScriptTypeInverse(m.withScriptType);
    }
  }

  lemma RuleKeysOfOne(rules: seq<FieldRule>)
    requires |rules| == 1
    ensures RuleKeys(rules) == {rules[0].key}
  {
  }

  lemma RuleKeysOfThree(rules: seq<FieldRule>)
    requires |rules| == 3
    ensures RuleKeys(rules) == {rules[0].key, rules[1].key, rules[2].key}
  {
  }

  /**
   The validator accepts a value as message `m` exactly when every key of
   `m`'s record reads the same on the value: unknown keys are ignored and each
   field's absent/null/value state is carried over unchanged.
   */
  lemma ParseIffAgrees(input: Json, m: Message)
    ensures ParseValue(input) == Ok(m) <==> Agrees(input, Fields(m))
  {
    AgreesSplits(input, m);
    KindIff(input, m);
  }

  /** The keys of `m`'s record after `version` and `type` read the same on `input`. */
  ghost predicate BodyAgrees(input: Json, m: Message) {
    match m
    case RequestAddress(signature, key, scriptType) =>
      && Get(input, "withMessageSignature") == StringField(signature)
      && Get(input, "withExtendedPublicKey") == BoolField(key)
      && Get(input, "withScriptType") == ScriptTypeField(scriptType)
    case RequestExtendedPublicKey(scriptType) =>
      Get(input, "withScriptType") == ScriptTypeField(scriptType)
    case VerifyAddress(address) =>
      Get(input, "bitcoinAddress") == JStr(address)
    case Address(address, signature, key) =>
      && Get(input, "bitcoinAddress") == JStr(address)
      && Get(input, "signature") == StringField(signature)
      && Get(input, "extendedPublicKey") == StringField(key)
    case ExtendedPublicKey(key) =>
      Get(input, "extendedPublicKey") == JStr(key)
  }

  lemma AgreesSplits(input: Json, m: Message)
    ensures Agrees(input, Fields(m)) <==>
      Get(input, "version") == JStr(Version0) && Get(input, "type") == JStr(TypeName(m)) && BodyAgrees(input, m)
  {
    var record := Fields(m);
    if Get(input, "version") == JStr(Version0) && Get(input, "type") == JStr(TypeName(m)) && BodyAgrees(input, m) {
      forall k | k in record ensures Get(input, k) == record[k] {
        match m
        case RequestAddress(_, _, _) =>
        case RequestExtendedPublicKey(_) =>
        case VerifyAddress(_) =>
        case Address(_, _, _) =>
        case ExtendedPublicKey(_) =>
      }
    }
    if Agrees(input, record) {
      match m
      case RequestAddress(_, _, _) =>
        assert Get(input, "withMessageSignature") == record["withMessageSignature"];
        assert Get(input, "withExtendedPublicKey") == record["withExtendedPublicKey"];
        assert Get(input, "withScriptType") == record["withScriptType"];
      case RequestExtendedPublicKey(_) =>
        assert Get(input, "withScriptType") == record["withScriptType"];
      case VerifyAddress(_) =>
        assert Get(input, "bitcoinAddress") == record["bitcoinAddress"];
      case Address(_, _, _) =>
        assert Get(input, "bitcoinAddress") == record["bitcoinAddress"];
        assert Get(input, "signature") == record["signature"];
        assert Get(input, "extendedPublicKey") == record["extendedPublicKey"];
      case ExtendedPublicKey(_) =>
        assert Get(input, "extendedPublicKey") == record["extendedPublicKey"];
    }
  }

  lemma KindIff(input: Json, m: Message)
    ensures ParseValue(input) == Ok(m) <==>
      Get(input, "version") == JStr(Version0) && Get(input, "type") == JStr(TypeName(m)) && BodyAgrees(input, m)
  {
    if Get(input, "version") == JStr(Version0) && Get(input, "type") == JStr(TypeName(m)) {
      assert ParseValue(input) == ParseFields(JStr(TypeName(m)), input);
      DispatchesOnKind(input, m);
      match m
      case RequestAddress(_, _, _) => RequestAddressIff(input, m);
      case RequestExtendedPublicKey(_) => RequestExtendedPublicKeyIff(input, m);
      case VerifyAddress(_) =>
      case Address(_, _, _) => AddressIff(input, m);
      case ExtendedPublicKey(_) =>
    }
  }

  lemma DispatchesOnKind(input: Json, m: Message)
    ensures ParseFields(JStr(TypeName(m)), input) ==
      match m
      case RequestAddress(_, _, _) => ParseRequestAddress(input)
      case RequestExtendedPublicKey(_) => ParseRequestExtendedPublicKey(input)
      case VerifyAddress(_) => ParseVerifyAddress(input)
      case Address(_, _, _) => ParseAddress(input)
      case ExtendedPublicKey(_) => ParseExtendedPublicKey(input)
  {
    TypeNamesDistinct();
  }

  lemma RequestAddressIff(input: Json, m: Message)
    requires m.RequestAddress?
    ensures ParseRequestAddress(input) == Ok(m) <==> BodyAgrees(input, m)
  {
    OptScriptTypeInverse(m.withScriptType);
  }

  lemma RequestExtendedPublicKeyIff(input: Json, m: Message)
    requires m.RequestExtendedPublicKey?
    ensures ParseRequestExtendedPublicKey(input) == Ok(m) <==> BodyAgrees(input, m)
  {
    OptScriptTypeInverse(m.withScriptType);
  }

  lemma AddressIff(input: Json, m: Message)
    requires m.Address?
    ensures ParseAddress(input) == Ok(m) <==> BodyAgrees(input, m)
  {
  }

  lemma OptScriptTypeInverse(o: Opt<ScriptType>)
    ensures IsOneOf(ScriptTypeField(o), ScriptTypeNames) || IsNullish(ScriptTypeField(o))
    ensures OptScriptType(ScriptTypeField(o)) == o
  {
    if o.Val? {
      assert ScriptTypeOf(ScriptTypeName(o.value)) == o.value by {
        match o.value
        case P2pkh =>
        case P2wpkh =>
        case P2sh =>
        case P2tr =>
      }
    }
  }

  /** Validating the record of any message gives that message back. */
  lemma RoundTrip(m: Message)
    ensures ParseValue(ToJson(m)) == Ok(m)
  {
    ParseIffAgrees(ToJson(m), m);
  }

  /** Validating a validator's own result changes nothing. */
  lemma ParseIdempotent(input: Json)
    requires ParseValue(input).Ok?
    ensures ParseValue(ToJson(ParseValue(input).value)) == ParseValue(input)
  {
    RoundTrip(ParseValue(input).value);
  }

  /**
   Serialised text that a JSON parser reads back as the record without its
   `undefined` keys is parsed as the same message.
   */
  lemma TextRoundTrip(m: Message, stringify: Json -> string, jsonParse: string -> Option<Json>)
    requires jsonParse(SerializeMessage(m, stringify)) == Some(JObj(DropUndefined(Fields(m))))
    ensures ParseMessage(JStr(SerializeMessage(m, stringify)), jsonParse) == Ok(m)
  {
    ParseIffAgrees(JObj(DropUndefined(Fields(m))), m);
  }

  /**
   `withScriptType` accepts exactly the four script type names, `null` and
   `undefined`, on both kinds that carry it.
   */
  lemma ScriptTypeClosed(input: Json, t: string)
    requires IsObject(input) && Get(input, "version") == JStr(Version0)
    requires t == RequestAddressType || t == RequestExtendedPublicKeyType
    requires Get(input, "type") == JStr(t)
    requires t == RequestAddressType ==> Admits(StringOrNullish, Get(input, "withMessageSignature"))
                                         && Admits(BooleanOrNullish, Get(input, "withExtendedPublicKey"))
    ensures ParseValue(input).Ok? <==> Admits(ScriptTypeOrNullish, Get(input, "withScriptType"))
    ensures !ParseValue(input).Ok? ==> ParseValue(input) == Err(ErrScriptTypeIndicator)
  {
  }

  /** Values that the test suite expects to be rejected, with the error each gets. */
  lemma RejectedFixtures()
    ensures ParseValue(JNull) == Err(ErrNotAnObject)
    ensures ParseValue(JUndef) == Err(ErrNotAnObject)
    ensures ParseValue(JObj(map[])) == Err(ErrUnsupportedVersion)
    ensures ParseValue(JArr([])) == Err(ErrUnsupportedVersion)
    ensures ParseValue(JObj(map["version" := JStr("incomplete")])) == Err(ErrUnsupportedVersion)
    ensures ParseValue(JObj(map["version" := JStr("0"), "type" := JStr("paymentRequest")])) == Err(ErrInvalidType)
  {
  }

  /** `withMessageSignature: false` is refused although the message type declares it. */
  lemma FalseSignatureIndicatorRejected(input: Json)
    requires IsObject(input) && Get(input, "version") == JStr(Version0)
    requires Get(input, "type") == JStr(RequestAddressType)
    requires Get(input, "withMessageSignature").JBool?
    ensures ParseValue(input) == Err(ErrSignatureIndicator)
  {
  }
}
