/** The few JavaScript value notions the components rely on: a value that may be
    `undefined`/`null`, a call that may throw, and the truthiness of an optional
    string as `&&`, `||` and `!!` see it. */
module Js {

  /** A value that may be missing (`undefined` or `null`). */
  datatype Option<+T> = None | Some(value: T) {

    /** The value, or `default` when it is missing (a destructuring default). */
    function GetOr(default: T): (r: T)
      ensures Some? ==> r == value
      ensures None? ==> r == default
    {
      match this
      case Some(v) => v
      case None => default
    }
  }

  /** Either a returned value or a thrown error message. */
  datatype Result<+R> = Success(value: R) | Failure(error: string)

  /** An optional string is truthy exactly when it is present and not empty. */
  predicate Truthy(s: Option<string>) {
    s.Some? && s.value != ""
  }
}
