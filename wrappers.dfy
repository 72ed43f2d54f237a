/** Option and Result, the two failure-carrying types the model uses. */
module Wrappers {

  /** A value that may be absent; it stands for a Go nil pointer or nil map. */
  datatype Option<+T> = None | Some(value: T) {
    function GetOr(default: T): T {
      match this
      case Some(v) => v
      case None => default
    }
  }

  /** Either a value or an error, for a Go `(value, error)` pair. */
  datatype Result<+R, +E> = Success(value: R) | Failure(error: E)
}
