/** Failure-carrying values shared by the whole model. */
module Wrappers {

  datatype Option<+T> = None | Some(value: T)

  /** The result of an operation that the source lets raise an exception. */
  datatype Result<+T, +E> = Success(value: T) | Failure(error: E)
}
