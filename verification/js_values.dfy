/**
 * The JavaScript values a handler meets in a parsed JSON request body,
 * and the truthiness test the handlers and validators use on them.
 */
module JsValues {

  datatype Option<+T> = None | Some(value: T)

  /**
   * One field of a JSON request body. `Undefined` is a key that is not
   * there. A number is a real: a JSON body cannot carry NaN, and a literal
   * too large for a double (read as an infinity) meets every check the
   * validators make as a very large real would. Of an array only its
   * `length` is ever looked at; of an object nothing is.
   */
  datatype JsValue =
    | Undefined
    | Null
    | Bool(b: bool)
    | Num(x: real)
    | Str(s: string)
    | Arr(length: nat)
    | Obj

  /** JavaScript's ToBoolean: false, 0, "", null and undefined are falsy. */
  predicate Truthy(v: JsValue) {
    match v
    case Undefined => false
    case Null => false
    case Bool(b) => b
    case Num(x) => x != 0.0
    case Str(s) => s != ""
    case Arr(_) => true
    case Obj => true
  }

  /** A string-valued query parameter or header used in a boolean test. */
  predicate PresentNonEmpty(v: Option<string>) {
    v.Some? && v.value != ""
  }
}
