/** Option and Outcome values for absent results and failed operations. */
module Wrappers {

  datatype Option<+T> = None | Some(value: T)

  /** The result of an operation that either succeeds with a value or fails with an error. */
  datatype Result<+R, +E> = Success(value: R) | Failure(error: E)

  /** The result of an operation that produces nothing but may fail. */
  datatype Outcome<+E> = Pass | Fail(error: E)
}
