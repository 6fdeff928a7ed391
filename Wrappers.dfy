/** Option and Result, the two failure-carrying shapes the model needs. */
module Wrappers {

  /** A Java reference that may be null. */
  datatype Option<+T> = None | Some(value: T)

  /** The normal return of a service call, or the exception it throws. */
  datatype Result<+R, +E> = Success(value: R) | Failure(error: E)
}
