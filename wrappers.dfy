/** Option and Result: JavaScript's `null`/`undefined` and thrown errors, made explicit. */
module Wrappers {

  datatype Option<+T> = None | Some(value: T) {
    function GetOr(default: T): T {
      match this
      case Some(v) => v
      case None => default
    }
  }

  /** The outcome of an operation that either returns a value or throws an error message. */
  datatype Result<+T, +E> = Success(value: T) | Failure(error: E)
}
