/** Option and Result values used where the source has null, undefined or a thrown error. */
module Wrappers {

  /** A value that may be absent: Java's null, JavaScript's null or undefined. */
  datatype Option<+T> = None | Some(value: T) {

    /** The held value, or `default` when there is none. */
    function GetOr(default: T): T {
      match this
      case Some(v) => v
      case None => default
    }
  }

  /** The outcome of an operation that can fail with an error value. */
  datatype Result<+R, +E> = Success(value: R) | Failure(error: E)
}
