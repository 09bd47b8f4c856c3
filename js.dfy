/** The slice of JavaScript's value model that the menu application relies on. */
module Js {

  datatype Option<+T> = None | Some(value: T)

  /** A call that either returns a value or throws an error. */
  datatype Result<+T, +E> = Ok(value: T) | Err(error: E)

  /**
   * The values the application passes as ids and as record fields: a missing
   * property or omitted argument (`undefined`), `null`, a string (what a form
   * field yields) and an array of strings (what the contacts split yields, and
   * what a multi-valued form field yields).
   */
  datatype Value = Undefined | Null | Str(s: string) | List(elems: seq<string>)

  /** JavaScript truthiness: the empty string is falsy, every array is truthy. */
  predicate Truthy(v: Value)
    ensures !Truthy(v) <==> v == Undefined || v == Null || v == Str("")
  {
    match v
    case Undefined => false
    case Null => false
    case Str(s) => s != ""
    case List(_) => true
  }

  /**
   * An argument that is destructured or spread as an object: either `null` /
   * `undefined`, or a plain object, given by its own properties.
   */
  datatype Data = Nullish | Obj(props: map<string, Value>)

  /** Property read `obj[key]`: a missing property reads as `undefined`. */
  function Get(props: map<string, Value>, key: string): Value
  {
    if key in props then props[key] else Undefined
  }

  /** The own properties of a spread argument: spreading `null` or `undefined` adds none. */
  function Props(d: Data): map<string, Value>
  {
    match d
    case Nullish => map[]
    case Obj(props) => props
  }
}
