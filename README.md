# request-address validators in Dafny

This project models the two untrusted-input validators of the request-address wallet-messaging library.

- `parseMessage` decodes a protocol message of version `"0"`. The input must be an object with version `"0"` and one of five message types: `requestAddress`, `requestExtendedPublicKey`, `verifyAddress`, `address`, `extendedPublicKey`. The validator then checks that type's fields in order and returns a fresh record. The record holds only `version`, `type` and that type's fields.
- `parseSlip24` validates a SLIP-0024 payment request (SatoshiLabs SLIP-0024, "Payment Request"). `null` passes through as "no request". Otherwise it checks, in this order:
  - the recipient name;
  - the nonce, which must be a string or exactly `null`;
  - every memo, which is a `text`, `refund` or `coinPurchase` object;
  - every output, which needs a numeric `amount` and a string `bitcoinAddress`;
  - the signature.
- Both validators are built from the type guards of `src/utils.ts`, plus `isArray`, `isNull` and `isNumber`. Those three are imported at `src/slip24.ts:1` but not defined in `utils.ts`. Here they are `Array.isArray`, `=== null` and `typeof === 'number'`.

Files and modules:

- `json_value.dfy` (`JsonValue`) holds the input domain:
  - `Json` has the constructors `JUndef | JNull | JBool | JNum | JStr | JArr | JObj`.
  - A property read (`Get`) yields `JUndef` for a missing key, and for any named key read on an array or a primitive.
  - Numbers are opaque: they carry their literal text and have no arithmetic.
  - `Result` carries the message of the error the source throws.
  - `FirstFailure` is "check in order, the first failure wins", the behaviour of the two `for…of` loops that throw. The guard chains themselves are written as nested `if`s; the lemmas `MessageCodec.FieldErrorsFollowTable` and `Slip24Codec.ErrorsFollowStages` prove that they agree with `FirstFailure` over a table of checks.
- `utils.ts` is modelled by `utils.dfy` (`Utils`). Every guard except `isArray` is defined through JavaScript's `typeof` (`TypeOf`) or through strict equality; `isArray` is the array test itself. Its contract then says which values it holds for.
- `src/index.ts` is modelled by `message_codec.dfy` (`MessageCodec`):
  - `Message` has one constructor per message type. Each optional field is a tri-state `Opt`: `Absent | Null | Val`.
  - `ParseValue` is the guard chain on a structured value. `ParseMessage` adds the text branch.
  - `Fields` and `ToJson` give the record a message is. That record is what the validator returns and what is serialised.
  - `FieldRules` is the table of which field states each field accepts, in checking order. Lemmas tie the guard chain to it.
- `src/slip24.ts` is modelled by `slip24_codec.dfy` (`Slip24Codec`):
  - `Slip24` keeps the input's own memo and output lists, as the source returns them.
  - `Memo` and `Output` are the typed variants that `ReadMemo` and `ReadOutput` recognise.
  - `Stages` is the order of the top-level checks.

Behaviour follows the code where it differs from the declared TypeScript types or the tests:

- `withMessageSignature: false` is rejected with "message signature indicator invalid" (`src/index.ts:93`). The type at `src/index.ts:25` declares `false` as allowed.
- There is no `paymentRequest` message type in `src/index.ts`. That input fails with "invalid type". This includes the fixture at `test/index.test.ts:10`.
- An array passes the object check (`src/utils.ts:2`). `[]` then fails with "unsupported version" in `parseMessage`, and with "recipient name invalid" in `parseSlip24`. It is not rejected as "not an object".
- Outputs written with the key `address` fail with "bitcoin address invalid" (`src/slip24.ts:117-120`).
- A string given to `parseMessage` is first decoded as JSON text (`src/index.ts:70-76`). Only the decoded value is checked to be an object.
- A validated payment request has the five fields returned at `src/slip24.ts:128-134`.

## Model

| member | source | states |
|---|---|---|
| `JsonValue.Get` | src/index.ts:82 | a missing key, or any key read on an array or a primitive, reads as `undefined` |
| `JsonValue.DropUndefined` | src/index.ts:63-65 | leaving out the keys that hold `undefined` (as JSON text does) changes no key's read value and adds no key, and no kept key holds `undefined` |
| `JsonValue.FirstFailure` | src/slip24.ts:57-100 | no error is reported exactly when every item passes its check |
| `JsonValue.FirstFailureIsFirst` | src/slip24.ts:107-121 | a reported error is the error of some item, and every item before that one passed |
| `JsonValue.FirstFailureAt` | src/index.ts:92-105 | the first failing item decides the error, whatever the later items hold |
| `Utils.IsObject` | src/utils.ts:1-3 | true exactly for objects and arrays; false for `null`, `undefined`, strings, numbers and booleans |
| `Utils.IsString` | src/utils.ts:5-7 | true exactly for strings (so `isString(false)` is false) |
| `Utils.IsBoolean` | src/utils.ts:9-11 | true exactly for booleans (so `isBoolean(null)` is false) |
| `Utils.IsNullish` | src/utils.ts:13-15 | true exactly for `undefined` and `null` |
| `Utils.IsLiteral` | src/utils.ts:17-19 | strict equality with a string literal: only that same string passes |
| `Utils.IsOneOf` | src/utils.ts:21-23 | true iff the value is a string equal to one of the literals; false for an empty literal list |
| `Utils.IsNumber` | src/slip24.ts:1 | true exactly for numbers |
| `Utils.IsArray` | src/slip24.ts:1 | every array is also an object for `isObject` |
| `Utils.IsNull` | src/slip24.ts:1 | true exactly for the one value whose `typeof` is "object" but which `isObject` refuses, that is `null` |
| `Utils.GuardsPartition` | src/utils.ts:1-15 | every value is exactly one of: nullish, boolean, number, string, object |
| `MessageCodec.TypeName` | src/index.ts:7-13 | every message kind has one of the five version-"0" type names |
| `MessageCodec.ScriptTypeName` | src/index.ts:15-20 | every script type has one of the four names `p2pkh`, `p2wpkh`, `p2sh`, `p2tr` |
| `MessageCodec.ScriptTypeOf` | src/index.ts:15-20 | a validated script-type name decodes to the script type bearing that name |
| `MessageCodec.OptString` | src/index.ts:142-150 | a string-or-nullish field keeps its state: absent, `null` or the same string |
| `MessageCodec.OptBool` | src/index.ts:97-100 | a boolean-or-nullish field keeps its state: absent, `null` or the same boolean |
| `MessageCodec.OptScriptType` | src/index.ts:102-105 | a script-type-or-nullish field keeps its state: absent, `null` or the same script type |
| `MessageCodec.Fields` | src/index.ts:107-113 | a message's record holds `version` `"0"` and its kind's `type` name |
| `MessageCodec.ToJson` | src/index.ts:63-65 | a message is serialised as a keyed record |
| `MessageCodec.SerializeMessage` | src/index.ts:63-65 | the text is the encoder's output for a record that validates as the same message again |
| `MessageCodec.ParseRequestAddress` | src/index.ts:91-113 | accepted iff `withMessageSignature` is a string or nullish, `withExtendedPublicKey` a boolean or nullish, and `withScriptType` a script-type name or nullish; each of the three fields' absent/null/value state is kept in the result |
| `MessageCodec.ParseRequestExtendedPublicKey` | src/index.ts:114-124 | accepted iff `withScriptType` is a script-type name or nullish, whose state the result keeps; otherwise "script type indicator invalid" |
| `MessageCodec.ParseVerifyAddress` | src/index.ts:125-135 | accepted iff `bitcoinAddress` is a string, which the result carries; otherwise "bitcoin address missing" |
| `MessageCodec.ParseAddress` | src/index.ts:136-158 | accepted iff `bitcoinAddress` is a string and `signature` and `extendedPublicKey` are strings or nullish; the result carries the address and keeps both optional fields' states |
| `MessageCodec.ParseExtendedPublicKey` | src/index.ts:159-169 | accepted iff `extendedPublicKey` is a string, which the result carries as its key; otherwise "extended public key missing" |
| `MessageCodec.ParseFields` | src/index.ts:91-172 | a success has the kind named by `type`; "unsupported type" is never reported for the five type names |
| `MessageCodec.ParseValue` | src/index.ts:78-175 | non-objects fail with "not an object"; objects and arrays whose `version` is not `"0"` fail with "unsupported version"; a `type` outside the five names fails with "invalid type"; "unsupported type" is never reported; a success has version `"0"` and the message's own type |
| `MessageCodec.ParseMessage` | src/index.ts:67-78 | a non-string value is validated as it is; a string fails with "could not parse as json" exactly when JSON decoding fails, and otherwise the decoded value is validated |
| `MessageCodec.RequestAddressIff` | src/index.ts:91-113 | a `requestAddress` input is accepted as a given message iff each of its three fields reads as that message's field state |
| `MessageCodec.RequestExtendedPublicKeyIff` | src/index.ts:114-124 | a `requestExtendedPublicKey` input is accepted iff `withScriptType` reads as the message's state |
| `MessageCodec.AddressIff` | src/index.ts:136-158 | an `address` input is accepted iff `bitcoinAddress` is that string and `signature`/`extendedPublicKey` read as the message's states |
| `MessageCodec.KindIff` | src/index.ts:84-169 | past the object check, an input is accepted as `m` iff its version is `"0"`, its type is `m`'s, and the fields of `m`'s kind read as `m` holds them |
| `MessageCodec.FieldErrorsFollowTable` | src/index.ts:91-169 | past the discriminators, the error reported is that of the first field, in checking order, whose value the field table does not admit; no error iff all are admitted |
| `MessageCodec.FieldsFollowTable` | src/index.ts:107-169 | a message's record has exactly `version`, `type` and its kind's fields, and every field value is admitted by the table |
| `MessageCodec.ParseIffAgrees` | src/index.ts:78-176 | a value is accepted as `m` exactly when every key of `m`'s record reads the same on it: extra keys are dropped and each field's absent/null/value state is copied unchanged |
| `MessageCodec.RoundTrip` | src/index.ts:63-176 | validating the record of any message gives that message back |
| `MessageCodec.ParseIdempotent` | src/index.ts:107-169 | validating a validator's own result returns the same result |
| `MessageCodec.TextRoundTrip` | src/index.ts:63-76 | serialised text is parsed back as the same message when JSON decoding inverts JSON encoding |
| `MessageCodec.ScriptTypeClosed` | src/index.ts:102-118 | `withScriptType` is accepted iff it is one of the four names, `null` or absent, on both kinds that carry it; otherwise "script type indicator invalid" |
| `MessageCodec.FalseSignatureIndicatorRejected` | src/index.ts:92-95 | a boolean `withMessageSignature`, `false` included, fails with "message signature indicator invalid" |
| `MessageCodec.RejectedFixtures` | test/index.test.ts:34-46 | `null` and `undefined` fail with "not an object"; `{}`, `[]` and `{version:'incomplete'}` fail with "unsupported version"; type `paymentRequest` fails with "invalid type" |
| `Slip24Codec.ReadCoinPurchase` | src/slip24.ts:77-96 | a valid `coinPurchase` payload yields a coin-purchase memo |
| `Slip24Codec.ReadMemo` | src/slip24.ts:57-100 | "unsupported type" is never reported; an accepted memo is an object whose `type` names the memo's kind |
| `Slip24Codec.ReadOutput` | src/slip24.ts:107-121 | an accepted output is an object |
| `Slip24Codec.MemoIff` | src/slip24.ts:57-100 | a memo is accepted as `m` iff its `type` is `m`'s kind and its payload (`text`, `refund`, or the `coinPurchase` object's `coinType`, `amount` and `bitcoinAddress`) reads as `m`'s |
| `Slip24Codec.OutputIff` | src/slip24.ts:107-121 | an output is accepted as `o` iff its `amount` is `o`'s number and its `bitcoinAddress` is `o`'s string |
| `Slip24Codec.MemoRoundTrip` | src/slip24.ts:6-19 | every typed memo, written as a record, is accepted as itself |
| `Slip24Codec.OutputRoundTrip` | src/slip24.ts:20-23 | every typed output, written as a record, is accepted as itself |
| `Slip24Codec.Slip24Json` | src/slip24.ts:27-29 | "no payment request" is serialised as `null` and nothing else is |
| `Slip24Codec.Compose` | src/slip24.ts:3-25 | a payment request built from typed memos and outputs is well-formed, and its elements read back as those memos and outputs |
| `Slip24Codec.ParseSlip24` | src/slip24.ts:31-135 | the result is "no request" iff the input is `null`; other non-objects fail with "not an object"; an accepted request came from an object and all its memos and outputs pass their guards |
| `Slip24Codec.ParseIffAgrees` | src/slip24.ts:42-134 | a value is accepted as `p` exactly when its five keys read as `p`'s record, so that the lists are the input's own, and every memo and output passes its guard |
| `Slip24Codec.RoundTrip` | src/slip24.ts:27-134 | validating the serialised record of a well-formed payment request, or `null`, gives it back |
| `Slip24Codec.ParseIdempotent` | src/slip24.ts:42-134 | validating a validator's own result returns the same result |
| `Slip24Codec.ErrorsFollowStages` | src/slip24.ts:42-126 | on an object, the error reported is that of the first failing stage: recipient name, nonce, memos, outputs, signature. Within the memo and output stages it is the first bad element's error |
| `Slip24Codec.BadMemoFailsAll` | src/slip24.ts:52-100 | one bad memo, after a valid recipient name and nonce, fails the whole call with that memo's error |
| `Slip24Codec.Fixtures` | test/slip24.test.ts:5-38 | `null` gives "no request"; `undefined` fails with "not an object"; `{}` and `[]` fail with "recipient name invalid"; `{recipientName:'Incomplete'}` fails with "nonce invalid" |
| `Slip24Codec.OutputWithoutAddressRejected` | src/slip24.ts:112-120 | an output object with a numeric `amount` and no `bitcoinAddress` key fails with "bitcoin address invalid" |
| `Slip24Codec.AddressKeyOutputRejected` | test/slip24.test.ts:9-21 | the test suite's payment request (valid name, `null` nonce, one text memo, one output with a numeric amount and its address under `address`) fails with "bitcoin address invalid" |

## Left out

- `JSON.parse` and `JSON.stringify` (`src/index.ts:63-76`, `src/slip24.ts:27-29`) are library calls. `ParseMessage` takes the decoder as a function parameter, where None stands for a decoder that throws. `SerializeMessage` takes the encoder as a parameter. The payment-request serialiser is modelled only up to the structured value, by `Slip24Json`.
- Numbers have no arithmetic or precision here. Only their `typeof` tag matters to the validators.
- The JavaScript object model is left out: prototypes, inherited properties, getters, functions, symbols, bigints and boxed primitives. Of these, `Object(value) === value` would also accept functions and boxed primitives. A key holding `undefined` and a missing key read the same, as every read in the source does.
- Object identity is left out. So is the fact that the returned message record is a fresh object. The model's values have no identity.
- `MessageCodec.SerializeMessage`: `Message` leaves out the state `withMessageSignature: false`, which the declared message type (`src/index.ts:25`) and so `serializeMessage`'s parameter admit. For that message the source's serialise-then-parse round trip fails: the text decodes back to `withMessageSignature: false`, which `parseMessage` rejects with "message signature indicator invalid" (`src/index.ts:93`), as `MessageCodec.FalseSignatureIndicatorRejected` shows. The serialiser is modelled, and `MessageCodec.RoundTrip` proved, only for the messages the validator can return.
- `MessageCodec.ToJson`: its own contract says only that the result is a record. What the record holds is stated by `MessageCodec.Fields`, `MessageCodec.FieldsFollowTable` and `MessageCodec.ParseIffAgrees`.
- `MessageCodec.Message` carries no version field, because `"0"` is the only version. `MessageCodec.Fields` adds it back.
- The `paymentRequest` message type is not modelled. Neither is a call from `parseMessage` into `parseSlip24`. Neither exists in `src/index.ts`.
- Test fixtures that the code rejects are not modelled as accepted inputs. These are the `paymentRequest` message at `test/index.test.ts:6-32` and the `address`-keyed output at `test/slip24.test.ts:9-21`. Their rejection is stated by `MessageCodec.RejectedFixtures` and `Slip24Codec.AddressKeyOutputRejected`.
- The test harness itself is not modelled.
