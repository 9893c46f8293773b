/** The optional value used for parsed messages, replies and broadcast requests. */
module Wrappers {
  datatype Option<+T> = None | Some(value: T)
}

/**
 * The JavaScript values that the relay reads from a parsed message and stores
 * on a socket: a field that is absent (`undefined`), JSON `null`, or a string.
 * JavaScript truthiness is written out, because the handlers branch on it.
 */
module JsValues {

  datatype Val = Undefined | Null | Str(s: string)

  /** `!!v` in JavaScript: only a non-empty string is truthy. */
  predicate Truthy(v: Val) {
    v.Str? && v.s != ""
  }

  /** `a || b` in JavaScript: `a` when it is truthy, otherwise `b`. */
  function Or(a: Val, b: Val): (r: Val)
    ensures r == a || r == b
    ensures Truthy(r) <==> Truthy(a) || Truthy(b)
    ensures Truthy(a) ==> r == a
    ensures !Truthy(a) ==> r == b
  {
    if Truthy(a) then a else b
  }
}
