/** Option and Result, the two failure-carrying shapes used across the model. */
module Wrappers {

  /** A value or its absence (`null` / `undefined` in the source). */
  datatype Option<+T> = None | Some(value: T) {
    function GetOr(default: T): T {
      match this
      case Some(v) => v
      case None => default
    }
  }

  /** A success value or a thrown error. */
  datatype Result<+R, +E> = Success(value: R) | Failure(error: E)
}
