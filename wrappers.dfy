/** The optional value and the success-or-error value shared by every module of the model. */
module Wrappers {

  /** A value that may be absent: Java's null, TypeScript's undefined. */
  datatype Option<+T> = None | Some(value: T) {
    function GetOr(default: T): T
    {
      if Some? then value else default
    }
  }

  /** The outcome of an operation that throws in the source. */
  datatype Result<+T, +E> = Success(value: T) | Failure(error: E)
}
