/** Failure-carrying wrappers used for the error paths of the model. */
module Wrappers {

  datatype Option<+T> = None | Some(value: T)

  /** The result of an operation that either yields a value or fails with an error. */
  datatype Result<+T, +E> = Success(value: T) | Failure(error: E)

  /** The result of an operation that yields nothing on success. */
  datatype Outcome<+E> = Pass | Fail(error: E)
}
