/** Option and Result types shared by the modules of the model. */
module Wrappers {

  /** A value that may be absent: JavaScript's undefined/null, Java's null or an empty Optional. */
  datatype Option<+T> = None | Some(value: T) {
    function GetOr(default: T): T {
      match this
      case Some(v) => v
      case None => default
    }
  }

  /** The outcome of an operation that either produces a value or raises an error. */
  datatype Result<+R, +E> = Success(value: R) | Failure(error: E)
}
