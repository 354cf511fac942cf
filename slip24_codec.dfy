/**
 The SLIP-0024 payment request ("Payment Request", SatoshiLabs SLIP-0024)
 as this library validates it: a recipient, an optional nonce, a list of
 typed memos, a list of outputs and a signature, or `null` for none.
 */
module Slip24Codec {
  import opened JsonValue
  import opened Utils

  // The messages of the errors the validator throws.
  const ErrNotAnObject: string := "not an object"
  const ErrRecipientName: string := "recipient name invalid"
  const ErrNonce: string := "nonce invalid"
  const ErrMemos: string := "memos invalid"
  const ErrMemoNotObject: string := "memo not an object"
  const ErrInvalidType: string := "invalid type"
  const ErrText: string := "text invalid"
  const ErrRefund: string := "refund invalid"
  const ErrCoinType: string := "coin type invalid"
  const ErrAmount: string := "amount invalid"
  const ErrBitcoinAddress: string := "bitcoin address invalid"
  const ErrUnsupportedType: string := "unsupported type"
  const ErrOutputs: string := "outputs invalid"
  const ErrOutputNotObject: string := "output not an object"
  const ErrSignature: string := "signature invalid"

  /** The memo types, in the order the validator lists them. */
  const MemoTypes: seq<string> := ["text", "refund", "coinPurchase"]

  datatype Memo =
    | Text(text: string)
    | Refund(refund: string)
    | CoinPurchase(coinType: Number, amount: string, bitcoinAddress: string)

  datatype Output = Output(amount: Number, bitcoinAddress: string)

  /**
   A validated payment request. The memo and output lists are the input's
   own lists, element for element: the validator checks them and hands them
   back as they came, extra keys included. `nonce` None is `null`.
   */
  datatype Slip24 = Slip24(recipientName: string, nonce: Option<string>, memos: seq<Json>,
                           outputs: seq<Json>, signature: string)

  function MemoTypeName(m: Memo): (name: string)
    ensures name in MemoTypes
  {
    match m
    case Text(_) => "text"
    case Refund(_) => "refund"
    case CoinPurchase(_, _, _) => "coinPurchase"
  }

  // ---------------------------------------------------------------------------
  // Element guards: the bodies of the two loops over memos and outputs.

  /** The `coinPurchase` payload of a memo. */
  function ReadCoinPurchase(coinPurchase: Json): (r: Result<Memo>)
    ensures r.Ok? ==> r.value.CoinPurchase?
  {
    if !IsObject(coinPurchase) then Err(ErrNotAnObject)
    else
      var coinType := Get(coinPurchase, "coinType");
      if !IsNumber(coinType) then Err(ErrCoinType)
      else
        var amount := Get(coinPurchase, "amount");
        if !IsString(amount) then Err(ErrAmount)
        else
          var bitcoinAddress := Get(coinPurchase, "bitcoinAddress");
          if !IsString(bitcoinAddress) then Err(ErrBitcoinAddress)
          else Ok(CoinPurchase(coinType.n, amount.s, bitcoinAddress.s))
  }

  function ReadMemo(memo: Json): (r: Result<Memo>)
    ensures r != Err(ErrUnsupportedType)
    ensures r.Ok? ==> memo.JObj? && Get(memo, "type") == JStr(MemoTypeName(r.value))
  {
    if !IsObject(memo) then Err(ErrMemoNotObject)
    else
      var memoType := Get(memo, "type");
      if !IsOneOf(memoType, MemoTypes) then Err(ErrInvalidType)
      else if memoType == JStr("text") then
        var text := Get(memo, "text");
        if !IsString(text) then Err(ErrText) else Ok(Text(text.s))
      else if memoType == JStr("refund") then
        var refund := Get(memo, "refund");
        if !IsString(refund) then Err(ErrRefund) else Ok(Refund(refund.s))
      else if memoType == JStr("coinPurchase") then
        ReadCoinPurchase(Get(memo, "coinPurchase"))
      else Err(ErrUnsupportedType)
  }

  function ReadOutput(output: Json): (r: Result<Output>)
    ensures r.Ok? ==> output.JObj?
  {
    if !IsObject(output) then Err(ErrOutputNotObject)
    else
      var amount := Get(output, "amount");
      if !IsNumber(amount) then Err(ErrAmount)
      else
        var bitcoinAddress := Get(output, "bitcoinAddress");
        if !IsString(bitcoinAddress) then Err(ErrBitcoinAddress)
        else Ok(Output(amount.n, bitcoinAddress.s))
  }

  function MemoError(memo: Json): Option<string> {
    ErrorOf(ReadMemo(memo))
  }

  function OutputError(output: Json): Option<string> {
    ErrorOf(ReadOutput(output))
  }

  /** Every memo and every output of `p` passes its guard. */
  predicate WellFormed(p: Slip24) {
    && (forall i :: 0 <= i < |p.memos| ==> ReadMemo(p.memos[i]).Ok?)
    && (forall i :: 0 <= i < |p.outputs| ==> ReadOutput(p.outputs[i]).Ok?)
  }

  // ---------------------------------------------------------------------------
  // The validator.

  /**
   `parseSlip24`: `null` passes as None; otherwise recipient name, nonce,
   every memo, every output and the signature are checked in that order, and
   the first failure is the error.
   */
  function ParseSlip24(value: Json): (r: Result<Option<Slip24>>)
    ensures r == Ok(None) <==> value == JNull
    ensures value != JNull && !value.JObj? && !value.JArr? ==> r == Err(ErrNotAnObject)
    ensures r.Ok? && r.value.Some? ==> value.JObj? && WellFormed(r.value.value)
  {
    if IsNull(value) then Ok(None)
    else if !IsObject(value) then Err(ErrNotAnObject)
    else
      var recipientName := Get(value, "recipientName");
      if !IsString(recipientName) then Err(ErrRecipientName)
      else
        var nonce := Get(value, "nonce");
        if !IsString(nonce) && !IsNull(nonce) then Err(ErrNonce)
        else
          var memos := Get(value, "memos");
          if !IsArray(memos) then Err(ErrMemos)
          else match FirstFailure(memos.items, MemoError) {
            case Some(e) => Err(e)
            case None =>
              var outputs := Get(value, "outputs");
              if !IsArray(outputs) then Err(ErrOutputs)
              else match FirstFailure(outputs.items, OutputError) {
                case Some(e) => Err(e)
                case None =>
                  var signature := Get(value, "signature");
                  if !IsString(signature) then Err(ErrSignature)
                  else Ok(Some(Slip24(recipientName.s, if nonce.JStr? then Some(nonce.s) else None,
                                      memos.items, outputs.items, signature.s)))
              }
          }
  }

  // ---------------------------------------------------------------------------
  // Encoding: the record a payment request is, and its elements.

  function NonceJson(nonce: Option<string>): Json {
    match nonce
    case None => JNull
    case Some(s) => JStr(s)
  }

  function Slip24Fields(p: Slip24): map<string, Json> {
    map["recipientName" := JStr(p.recipientName), "nonce" := NonceJson(p.nonce), "memos" := JArr(p.memos),
        "outputs" := JArr(p.outputs), "signature" := JStr(p.signature)]
  }

  /** `serializeSlip24` before the text step: `null` stays `null`. */
  function Slip24Json(p: Option<Slip24>): (j: Json)
    ensures p.None? <==> j == JNull
  {
    match p
    case None => JNull
    case Some(q) => JObj(Slip24Fields(q))
  }

  function MemoJson(m: Memo): Json {
    match m
    case Text(t) => JObj(map["type" := JStr("text"), "text" := JStr(t)])
    case Refund(a) => JObj(map["type" := JStr("refund"), "refund" := JStr(a)])
    case CoinPurchase(c, a, b) =>
      JObj(map["type" := JStr("coinPurchase"),
               "coinPurchase" := JObj(map["coinType" := JNum(c), "amount" := JStr(a), "bitcoinAddress" := JStr(b)])])
  }

  function OutputJson(o: Output): Json {
    JObj(map["amount" := JNum(o.amount), "bitcoinAddress" := JStr(o.bitcoinAddress)])
  }

  /** A payment request built from typed memos and outputs. */
  function Compose(recipientName: string, nonce: Option<string>, memos: seq<Memo>, outputs: seq<Output>,
                   signature: string): (p: Slip24)
    ensures WellFormed(p)
    ensures |p.memos| == |memos| && forall i :: 0 <= i < |memos| ==> ReadMemo(p.memos[i]) == Ok(memos[i])
    ensures |p.outputs| == |outputs| && forall i :: 0 <= i < |outputs| ==> ReadOutput(p.outputs[i]) == Ok(outputs[i])
  {
    var p := Slip24(recipientName, nonce, seq(|memos|, i requires 0 <= i < |memos| => MemoJson(memos[i])),
                    seq(|outputs|, i requires 0 <= i < |outputs| => OutputJson(outputs[i])), signature);
    assert forall i :: 0 <= i < |memos| ==> ReadMemo(p.memos[i]) == Ok(memos[i]) by {
      forall i | 0 <= i < |memos| ensures ReadMemo(p.memos[i]) == Ok(memos[i]) { MemoRoundTrip(memos[i]); }
    }
    assert forall i :: 0 <= i < |outputs| ==> ReadOutput(p.outputs[i]) == Ok(outputs[i]) by {
      forall i | 0 <= i < |outputs| ensures ReadOutput(p.outputs[i]) == Ok(outputs[i]) { OutputRoundTrip(outputs[i]); }
    }
    p
  }

  // ---------------------------------------------------------------------------
  // Element properties.

  /** What a memo of value `m` must hold: its type and its payload; other keys are free. */
  ghost predicate DescribesMemo(memo: Json, m: Memo) {
    match m
    case Text(t) => Get(memo, "type") == JStr("text") && Get(memo, "text") == JStr(t)
    case Refund(a) => Get(memo, "type") == JStr("refund") && Get(memo, "refund") == JStr(a)
    case CoinPurchase(c, a, b) =>
      var payload := Get(memo, "coinPurchase");
      && Get(memo, "type") == JStr("coinPurchase")
      && Get(payload, "coinType") == JNum(c)
      && Get(payload, "amount") == JStr(a)
      && Get(payload, "bitcoinAddress") == JStr(b)
  }

  ghost predicate DescribesOutput(output: Json, o: Output) {
    Get(output, "amount") == JNum(o.amount) && Get(output, "bitcoinAddress") == JStr(o.bitcoinAddress)
  }

  /** The three memo type names are pairwise different. */
  lemma MemoTypeNamesDistinct()
    ensures "text" != "refund" && "text" != "coinPurchase" && "refund" != "coinPurchase"
  {
    assert |"text"| == 4 && |"refund"| == 6 && |"coinPurchase"| == 12;
  }

  lemma MemoIff(memo: Json, m: Memo)
    ensures ReadMemo(memo) == Ok(m) <==> DescribesMemo(memo, m)
  {
    MemoTypeNamesDistinct();
  }

  lemma OutputIff(output: Json, o: Output)
    ensures ReadOutput(output) == Ok(o) <==> DescribesOutput(output, o)
  {
  }

  lemma MemoRoundTrip(m: Memo)
    ensures ReadMemo(MemoJson(m)) == Ok(m)
  {
    MemoTypeNamesDistinct();
    var j := MemoJson(m);
    assert Get(j, "type") == JStr(MemoTypeName(m));
    match m
    case Text(t) =>
      assert Get(j, "text") == JStr(t);
    case Refund(a) =>
      assert Get(j, "refund") == JStr(a);
    case CoinPurchase(c, a, b) =>
      var payload := Get(j, "coinPurchase");
      assert Get(payload, "coinType") == JNum(c);
      assert Get(payload, "amount") == JStr(a);
      assert Get(payload, "bitcoinAddress") == JStr(b);
  }

  lemma OutputRoundTrip(o: Output)
    ensures ReadOutput(OutputJson(o)) == Ok(o)
  {
    OutputIff(OutputJson(o), o);
  }

  // ---------------------------------------------------------------------------
  // Properties of the validator.

  /**
   A value is accepted as `p` exactly when its five keys read as `p`'s record
   (other keys are ignored, the lists are taken as they are) and every memo and
   output of `p` passes its guard.
   */
  lemma ParseIffAgrees(value: Json, p: Slip24)
    ensures ParseSlip24(value) == Ok(Some(p)) <==> Agrees(value, Slip24Fields(p)) && WellFormed(p)
  {
    if ParseSlip24(value) == Ok(Some(p)) {
      AcceptedAgrees(value, p);
    }
    if Agrees(value, Slip24Fields(p)) && WellFormed(p) {
      AgreesAccepted(value, p);
    }
  }

  lemma AcceptedAgrees(value: Json, p: Slip24)
    requires ParseSlip24(value) == Ok(Some(p))
    ensures Agrees(value, Slip24Fields(p))
  {
  }

  lemma AgreesAccepted(value: Json, p: Slip24)
    requires Agrees(value, Slip24Fields(p)) && WellFormed(p)
    ensures ParseSlip24(value) == Ok(Some(p))
  {
    var record := Slip24Fields(p);
    assert Get(value, "recipientName") == record["recipientName"];
    assert Get(value, "nonce") == record["nonce"];
    assert Get(value, "memos") == record["memos"];
    assert Get(value, "outputs") == record["outputs"];
    assert Get(value, "signature") == record["signature"];
    ReadsAccepted(value, p);
  }

  lemma ReadsAccepted(value: Json, p: Slip24)
    requires Get(value, "recipientName") == JStr(p.recipientName) && Get(value, "nonce") == NonceJson(p.nonce)
    requires Get(value, "memos") == JArr(p.memos) && Get(value, "outputs") == JArr(p.outputs)
    requires Get(value, "signature") == JStr(p.signature)
    requires WellFormed(p)
    ensures ParseSlip24(value) == Ok(Some(p))
  {
    assert forall i :: 0 <= i < |p.memos| ==> MemoError(p.memos[i]).None?;
    assert forall i :: 0 <= i < |p.outputs| ==> OutputError(p.outputs[i]).None?;
    assert FirstFailure(p.memos, MemoError).None?;
    assert FirstFailure(p.outputs, OutputError).None?;
  }

  /** Validating the record of a well-formed payment request gives it back; `null` stays `null`. */
  lemma RoundTrip(p: Option<Slip24>)
    requires p.Some? ==> WellFormed(p.value)
    ensures ParseSlip24(Slip24Json(p)) == Ok(p)
  {
    if p.Some? {
      ParseIffAgrees(Slip24Json(p), p.value);
    }
  }

  /** Validating a validator's own result changes nothing. */
  lemma ParseIdempotent(value: Json)
    requires ParseSlip24(value).Ok?
    ensures ParseSlip24(Slip24Json(ParseSlip24(value).value)) == ParseSlip24(value)
  {
    RoundTrip(ParseSlip24(value).value);
  }

  /** The checks of a payment request, in the order the validator makes them. */
  datatype Stage = RecipientNameStage | NonceStage | MemosStage | OutputsStage | SignatureStage

  const Stages: seq<Stage> := [RecipientNameStage, NonceStage, MemosStage, OutputsStage, SignatureStage]

  function StageError(value: Json, stage: Stage): Option<string> {
    match stage
    case RecipientNameStage =>
      if Get(value, "recipientName").JStr? then None else Some(ErrRecipientName)
    case NonceStage =>
      var nonce := Get(value, "nonce");
      if nonce.JStr? || nonce.JNull? then None else Some(ErrNonce)
    case MemosStage =>
      var memos := Get(value, "memos");
      if memos.JArr? then FirstFailure(memos.items, MemoError) else Some(ErrMemos)
    case OutputsStage =>
      var outputs := Get(value, "outputs");
      if outputs.JArr? then FirstFailure(outputs.items, OutputError) else Some(ErrOutputs)
    case SignatureStage =>
      if Get(value, "signature").JStr? then None else Some(ErrSignature)
  }

  function StageCheck(value: Json): Stage -> Option<string> {
    stage => StageError(value, stage)
  }

  /**
   On an object or array, the error reported is that of the first stage that
   fails (and within the memo and output stages, of the first bad element);
   when no stage fails the value is accepted.
   */
  lemma ErrorsFollowStages(value: Json)
    requires IsObject(value)
    ensures FirstFailure(Stages, StageCheck(value)) == ErrorOf(ParseSlip24(value))
  {
    StagesInOrder(value);
    FirstFailureOfFive(RecipientNameStage, NonceStage, MemosStage, OutputsStage, SignatureStage, StageCheck(value));
  }

  lemma StagesInOrder(value: Json)
    requires IsObject(value)
    ensures ErrorOf(ParseSlip24(value)) ==
      if StageError(value, RecipientNameStage).Some? then StageError(value, RecipientNameStage)
      else if StageError(value, NonceStage).Some? then StageError(value, NonceStage)
      else if StageError(value, MemosStage).Some? then StageError(value, MemosStage)
      else if StageError(value, OutputsStage).Some? then StageError(value, OutputsStage)
      else StageError(value, SignatureStage)
  {
  }

  /** One memo that fails its guard fails the whole payment request with that memo's error. */
  lemma BadMemoFailsAll(value: Json, i: nat)
    requires IsObject(value) && Get(value, "recipientName").JStr?
    requires Get(value, "nonce").JStr? || Get(value, "nonce").JNull?
    requires Get(value, "memos").JArr? && i < |Get(value, "memos").items|
    requires ReadMemo(Get(value, "memos").items[i]).Err?
    requires forall j :: 0 <= j < i ==> ReadMemo(Get(value, "memos").items[j]).Ok?
    ensures ParseSlip24(value) == Err(ReadMemo(Get(value, "memos").items[i]).error)
  {
    FirstFailureAt(Get(value, "memos").items, MemoError, i);
  }

  // ---------------------------------------------------------------------------
  // The test suite's values.

  lemma Fixtures()
    ensures ParseSlip24(JNull) == Ok(None)
    ensures ParseSlip24(JUndef) == Err(ErrNotAnObject)
    ensures ParseSlip24(JObj(map[])) == Err(ErrRecipientName)
    ensures ParseSlip24(JArr([])) == Err(ErrRecipientName)
    ensures ParseSlip24(JObj(map["recipientName" := JStr("Incomplete")])) == Err(ErrNonce)
  {
  }

  /**
   An output object with a numeric `amount` but no `bitcoinAddress` key (the
   address written under another key, such as `address`) is refused.
   */
  lemma OutputWithoutAddressRejected(output: Json)
    requires output.JObj? && Get(output, "amount").JNum? && "bitcoinAddress" !in output.fields
    ensures ReadOutput(output) == Err(ErrBitcoinAddress)
  {
  }

  /** The test suite's payment request, whose one output has its address under `address`, is refused. */
  lemma AddressKeyOutputRejected()
    ensures ParseSlip24(JObj(map[
      "recipientName" := JStr("Merchant"), "nonce" := JNull,
      "memos" := JArr([JObj(map["type" := JStr("text"), "text" := JStr("Hello World!")])]),
      "outputs" := JArr([JObj(map["address" := JStr("tb1q2q0j6gmfxynj40p0kxsr9jkagcvgpuqvqynnup"), "amount" := JNum(Number("123456"))])]),
      "signature" := JStr("abc")])) == Err(ErrBitcoinAddress)
  {
    var memos := [JObj(map["type" := JStr("text"), "text" := JStr("Hello World!")])];
    var outputs := [JObj(map["address" := JStr("tb1q2q0j6gmfxynj40p0kxsr9jkagcvgpuqvqynnup"), "amount" := JNum(Number("123456"))])];
    var value := JObj(map["recipientName" := JStr("Merchant"), "nonce" := JNull, "memos" := JArr(memos),
                          "outputs" := JArr(outputs), "signature" := JStr("abc")]);
    MemoRoundTrip(Text("Hello World!"));
    assert memos[0] == MemoJson(Text("Hello World!"));
    assert FirstFailure(memos, MemoError).None?;
    assert Get(outputs[0], "bitcoinAddress") == JUndef;
    assert ReadOutput(outputs[0]) == Err(ErrBitcoinAddress);
    FirstFailureAt(outputs, OutputError, 0);
    assert Get(value, "recipientName") == JStr("Merchant");
    assert Get(value, "nonce") == JNull;
    assert Get(value, "memos") == JArr(memos);
    assert Get(value, "outputs") == JArr(outputs);
  }
}
