/** Failure-carrying datatypes shared by the model. */
module Wrappers {

  /** A value that may be absent. */
  datatype Option<+T> = None | Some(value: T)

  /** The value of a call that returns either a result or an error. */
  datatype Result<+R, +E> = Success(value: R) | Failure(error: E)
}
