/** Option and Result, used for JavaScript's "value or null" and for rejected promises. */
module Wrappers {

  datatype Option<+T> = None | Some(value: T) {
    /** `x || d` for an optional value: the value when present, otherwise the default. */
    function GetOr(default: T): T {
      match this
      case Some(v) => v
      case None => default
    }
  }

  datatype Result<+T, +E> = Ok(value: T) | Err(error: E)
}
