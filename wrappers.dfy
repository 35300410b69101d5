/** Option and Result, the failure-carrying values used by every module of the model. */
module Wrappers {

  datatype Option<+T> = None | Some(value: T)

  /** The outcome of an operation that may raise: `Failure` carries the exception that would be raised. */
  datatype Result<+R, +E> = Success(value: R) | Failure(error: E)
}
