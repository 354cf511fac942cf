/**
 The untrusted values both validators receive: the plain data a JSON
 document (or a caller) can hand over, plus JavaScript's `undefined`.
 A missing key reads as `JUndef`; numbers are opaque, since no validator
 does arithmetic on them.
 */
module JsonValue {

  /** A JavaScript number, kept as its literal text: only its type tag matters. */
  datatype Number = Number(literal: string)

  datatype Json =
    | JUndef
    | JNull
    | JBool(b: bool)
    | JNum(n: Number)
    | JStr(s: string)
    | JArr(items: seq<Json>)
    | JObj(fields: map<string, Json>)

  datatype Option<+T> = None | Some(value: T)

  /** The outcome of a validator: a value, or the message of the error it throws. */
  datatype Result<+T> = Ok(value: T) | Err(error: string)

  /** Property read `value[key]` (destructuring `const { key } = value`) on an object or array. */
  function Get(value: Json, key: string): (r: Json)
    ensures !value.JObj? ==> r == JUndef
    ensures value.JObj? && key !in value.fields ==> r == JUndef
  {
    if value.JObj? && key in value.fields then value.fields[key] else JUndef
  }

  /** Every key of `record` reads, on `value`, exactly as `record` holds it. */
  ghost predicate Agrees(value: Json, record: map<string, Json>) {
    forall k :: k in record ==> Get(value, k) == record[k]
  }

  /** `record` without the keys whose value is `undefined`, as JSON text leaves them out. */
  function DropUndefined(record: map<string, Json>): (r: map<string, Json>)
    ensures forall k :: Get(JObj(r), k) == Get(JObj(record), k)
    ensures r.Keys <= record.Keys
    ensures forall k :: k in r ==> r[k] != JUndef
  {
    map k | k in record && record[k] != JUndef :: record[k]
  }

  /** The message of a failed result, if any. */
  function ErrorOf<T>(r: Result<T>): (e: Option<string>)
    ensures e.None? <==> r.Ok?
    ensures r.Err? ==> e == Some(r.error)
  {
    if r.Err? then Some(r.error) else None
  }

  /**
   Checks `items` in order and reports the error of the first one that fails,
   the way a chain of guards with early returns or a loop that throws does.
   */
  function FirstFailure<T>(items: seq<T>, errorOf: T -> Option<string>): (r: Option<string>)
    ensures r.None? <==> forall i :: 0 <= i < |items| ==> errorOf(items[i]).None?
  {
    if items == [] then None
    else if errorOf(items[0]).Some? then errorOf(items[0])
    else
      var rest := FirstFailure(items[1..], errorOf);
      assert forall i :: 1 <= i < |items| ==> items[i] == items[1..][i - 1];
      rest
  }

  /** A reported error is that of some item, and every item before it passed. */
  lemma {:induction false} FirstFailureIsFirst<T>(items: seq<T>, errorOf: T -> Option<string>)
    requires FirstFailure(items, errorOf).Some?
    ensures exists i :: 0 <= i < |items| && errorOf(items[i]) == FirstFailure(items, errorOf)
                     && forall j :: 0 <= j < i ==> errorOf(items[j]).None?
  {
    if errorOf(items[0]).None? {
      FirstFailureIsFirst(items[1..], errorOf);
      var i :| 0 <= i < |items[1..]| && errorOf(items[1..][i]) == FirstFailure(items[1..], errorOf)
               && forall j :: 0 <= j < i ==> errorOf(items[1..][j]).None?;
      assert errorOf(items[i + 1]) == FirstFailure(items, errorOf);
      assert forall j :: 0 <= j < i + 1 ==> errorOf(items[j]).None? by {
        forall j | 0 <= j < i + 1 ensures errorOf(items[j]).None? {
          if j > 0 { assert items[j] == items[1..][j - 1]; }
        }
      }
    } else {
      assert errorOf(items[0]) == FirstFailure(items, errorOf);
    }
  }

  /** Whatever fails first decides: a failing item after which nothing is checked. */
  lemma {:induction false} FirstFailureAt<T>(items: seq<T>, errorOf: T -> Option<string>, i: nat)
    requires i < |items| && errorOf(items[i]).Some?
    requires forall j :: 0 <= j < i ==> errorOf(items[j]).None?
    ensures FirstFailure(items, errorOf) == errorOf(items[i])
  {
    if i > 0 {
      assert forall j :: 0 <= j < i - 1 ==> items[1..][j] == items[j + 1];
      FirstFailureAt(items[1..], errorOf, i - 1);
    }
  }

  lemma FirstFailureOfOne<T>(a: T, errorOf: T -> Option<string>)
    ensures FirstFailure([a], errorOf) == errorOf(a)
  {
  }

  lemma FirstFailureOfThree<T>(a: T, b: T, c: T, errorOf: T -> Option<string>)
    ensures FirstFailure([a, b, c], errorOf) ==
      if errorOf(a).Some? then errorOf(a) else if errorOf(b).Some? then errorOf(b) else errorOf(c)
  {
    var items := [a, b, c];
    if errorOf(a).Some? {
      FirstFailureAt(items, errorOf, 0);
    } else if errorOf(b).Some? {
      FirstFailureAt(items, errorOf, 1);
    } else if errorOf(c).Some? {
      FirstFailureAt(items, errorOf, 2);
    }
  }

  lemma FirstFailureOfFive<T>(a: T, b: T, c: T, d: T, e: T, errorOf: T -> Option<string>)
    ensures FirstFailure([a, b, c, d, e], errorOf) ==
      if errorOf(a).Some? then errorOf(a) else if errorOf(b).Some? then errorOf(b)
      else if errorOf(c).Some? then errorOf(c) else if errorOf(d).Some? then errorOf(d) else errorOf(e)
  {
    var items := [a, b, c, d, e];
    if errorOf(a).Some? {
      FirstFailureAt(items, errorOf, 0);
    } else if errorOf(b).Some? {
      FirstFailureAt(items, errorOf, 1);
    } else if errorOf(c).Some? {
      FirstFailureAt(items, errorOf, 2);
    } else if errorOf(d).Some? {
      FirstFailureAt(items, errorOf, 3);
    } else if errorOf(e).Some? {
      FirstFailureAt(items, errorOf, 4);
    }
  }
}
