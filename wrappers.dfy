/** Option and Result, used for the nullable values and the exceptions of the source. */
module Wrappers {

  datatype Option<+T> = None | Some(value: T) {
    function GetOr(default: T): T {
      match this
      case Some(v) => v
      case None => default
    }
  }

  /** An operation that either returns a value or fails with an error (an exception in the source). */
  datatype Result<+T, +E> = Ok(value: T) | Err(error: E)
}
