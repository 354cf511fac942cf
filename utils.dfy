/**
 The type guards the validators are built from. Each is a single
 expression over JavaScript's `typeof` or strict equality.
 */
module Utils {
  import opened JsonValue

  /** JavaScript's `typeof`: note that `null` and arrays are both "object". */
  function TypeOf(value: Json): (t: string)
    ensures t in {"undefined", "object", "boolean", "number", "string"}
  {
    match value
    case JUndef => "undefined"
    case JNull => "object"
    case JBool(_) => "boolean"
    case JNum(_) => "number"
    case JStr(_) => "string"
    case JArr(_) => "object"
    case JObj(_) => "object"
  }

  /**
   `Object(value) === value`: boxing returns the value itself exactly when it is
   not a primitive, and `null` is the one primitive whose `typeof` is "object".
   */
  predicate IsObject(value: Json)
    ensures IsObject(value) <==> value.JObj? || value.JArr?
  {
    TypeOf(value) == "object" && value != JNull
  }

  predicate IsString(value: Json)
    ensures IsString(value) <==> value.JStr?
  {
    TypeOf(value) == "string"
  }

  predicate IsBoolean(value: Json)
    ensures IsBoolean(value) <==> value.JBool?
  {
    TypeOf(value) == "boolean"
  }

  /** `typeof value === 'number'` (used by the payment-request validator). */
  predicate IsNumber(value: Json)
    ensures IsNumber(value) <==> value.JNum?
  {
    TypeOf(value) == "number"
  }

  /** `Array.isArray(value)` (used by the payment-request validator). */
  predicate IsArray(value: Json)
    ensures IsArray(value) ==> IsObject(value)
  {
    value.JArr?
  }

  /** `value === null`: the one value whose `typeof` is "object" that is not an object. */
  predicate IsNull(value: Json)
    ensures IsNull(value) <==> TypeOf(value) == "object" && !IsObject(value)
  {
    value == JNull
  }

  predicate IsNullish(value: Json)
    ensures IsNullish(value) <==> TypeOf(value) == "undefined" || IsNull(value)
  {
    value == JUndef || value == JNull
  }

  /** `value === literal` for a string literal: only that very string is equal. */
  predicate IsLiteral(value: Json, literal: string)
    ensures IsLiteral(value, literal) <==> IsString(value) && value.s == literal
  {
    value == JStr(literal)
  }

  /** `literals.some((l) => l === value)`. */
  predicate IsOneOf(value: Json, literals: seq<string>)
    ensures IsOneOf(value, literals) <==> value.JStr? && value.s in literals
    ensures literals == [] ==> !IsOneOf(value, literals)
  {
    |literals| > 0 && (IsLiteral(value, literals[0]) || IsOneOf(value, literals[1..]))
  }

  /** The guards split every value into exactly one of five kinds. */
  lemma GuardsPartition(value: Json)
    ensures IsNullish(value) || IsBoolean(value) || IsNumber(value) || IsString(value) || IsObject(value)
    ensures IsObject(value) ==> !IsNullish(value) && !IsBoolean(value) && !IsNumber(value) && !IsString(value)
    ensures IsString(value) ==> !IsNullish(value) && !IsBoolean(value) && !IsNumber(value)
    ensures IsNumber(value) ==> !IsNullish(value) && !IsBoolean(value)
    ensures IsBoolean(value) ==> !IsNullish(value)
  {
  }
}
