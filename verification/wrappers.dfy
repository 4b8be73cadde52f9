/** Wrappers shared by the model: an optional value (Go's nil pointer) and a
    success-or-error result (Go's `(value, error)` pair). */
module Wrappers {

  /** A value that may be absent; `None` plays the role of a nil pointer. */
  datatype Option<+T> = None | Some(value: T) {

    /** Returns the wrapped value, or `default` when absent. */
    function GetOr(default: T): T {
      match this
      case Some(v) => v
      case None => default
    }
  }

  /** Either a value or an error, never both. */
  datatype Result<+R, +E> = Success(value: R) | Failure(error: E)
}
