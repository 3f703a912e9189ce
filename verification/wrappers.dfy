/**
 * Optional values: JavaScript's `undefined`/`null` for a field or result
 * that may be absent; and results: a value, or the error a call throws.
 */
module Wrappers {
  datatype Option<+T> = None | Some(value: T) {
    function GetOr(default: T): T {
      match this
      case Some(v) => v
      case None => default
    }
  }

  datatype Result<+T, +E> = Ok(value: T) | Err(error: E)
}
