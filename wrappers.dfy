/** Option and Result, the failure-carrying values used across the model. */
module Wrappers {

  /** A value that may be absent, standing for a Java reference that may be null. */
  datatype Option<+T> = None | Some(value: T)

  /** The outcome of an operation that can raise an exception in the source. */
  datatype Result<+R, +E> = Success(value: R) | Failure(error: E)
}
