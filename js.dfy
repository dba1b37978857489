/** JavaScript value semantics the server relies on: nullable fields,
    truthiness and the `||` operator on them, and the value a `catch`
    clause receives. */
module Js {

  /** A field that may be `null` or `undefined` (None) or hold a value. */
  datatype Option<+T> = None | Some(value: T)
  {
    function GetOr(default: T): T {
      match this
      case Some(v) => v
      case None => default
    }
  }

  /** A JSON string field that may be missing or `null`. */
  type JsString = Option<string>

  /** JavaScript truthiness of a nullable string: `null`, `undefined` and
      the empty string are falsy, every other string is truthy. */
  predicate Truthy(s: JsString) {
    s.Some? && s.value != ""
  }

  /** `a || b` on nullable strings: `a` when it is truthy, otherwise `b`. */
  function Or(a: JsString, b: JsString): (r: JsString)
    ensures Truthy(a) ==> r == a
    ensures !Truthy(a) ==> r == b
    ensures Truthy(r) <==> Truthy(a) || Truthy(b)
  {
    if Truthy(a) then a else b
  }

  /** `a || 'literal'` with a non-empty literal: always a (truthy) string. */
  function OrElse(a: JsString, fallback: string): (s: string)
    requires fallback != ""
    ensures s != ""
    ensures Truthy(a) ==> s == a.value
    ensures !Truthy(a) ==> s == fallback
  {
    if Truthy(a) then a.value else fallback
  }

  /** What a `catch (error)` clause can receive: an `Error` object with its
      message, or any other thrown value. */
  datatype Thrown = ErrorObject(message: string) | OtherValue

  /** `error instanceof Error ? error.message : 'Unknown error'` */
  function ErrorText(e: Thrown): (text: string)
    ensures e.ErrorObject? ==> text == e.message
    ensures e.OtherValue? ==> text == "Unknown error"
  {
    match e
    case ErrorObject(m) => m
    case OtherValue => "Unknown error"
  }
}
