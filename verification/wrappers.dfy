/** Option and Result, shared by the whole model. */
module Wrappers {

  /** A value that may be absent: JavaScript's `undefined`/`null`. */
  datatype Option<+T> = None | Some(value: T) {
    function GetOr(default: T): T {
      match this
      case Some(v) => v
      case None => default
    }
  }

  /** The outcome of a request: a value, or the error it failed with. */
  datatype Result<+T, +E> = Ok(value: T) | Err(error: E)
}
