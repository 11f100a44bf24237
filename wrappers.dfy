/** Option and Result, used where the source returns an `Option` or panics. */
module Wrappers {

  datatype Option<+T> = None | Some(value: T)

  /** A panic of the source becomes a `Failure` carrying the kind of error. */
  datatype Result<+T, +E> = Success(value: T) | Failure(error: E)
}
