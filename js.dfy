/**
 * The few JavaScript value semantics the event bridge relies on, restricted
 * to the values a contract event puts where an account address is expected.
 */
module Js {

  /** A property that holds a string, or is `undefined` or `null`. */
  datatype Value = Undefined | Null | Str(s: string)

  /** JavaScript truthiness on these values: only a non-empty string is truthy. */
  predicate Truthy(v: Value)
  {
    v.Str? && |v.s| > 0
  }

  /** The text that string concatenation (`"..." + v`) produces for `v`. */
  function ToText(v: Value): string
  {
    match v
    case Undefined => "undefined"
    case Null => "null"
    case Str(s) => s
  }
}
