/** Failure-carrying values shared by every model in this project. */
module Wrappers {

  datatype Option<+T> = None | Some(value: T)

  /** A raised exception is a `Failure` carrying what was raised. */
  datatype Result<+T, +E> = Success(value: T) | Failure(error: E)
}
