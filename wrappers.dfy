/** Failure-compatible wrappers shared by the rest of the model. */
module Wrappers {

  datatype Option<+T> = None | Some(value: T)

  /** The outcome of a view that either produces a value or refuses with an error. */
  datatype Result<+R, +E> = Success(value: R) | Failure(error: E)

  /** The outcome of a view that only changes state or refuses with an error. */
  datatype Outcome<+E> = Pass | Fail(error: E)
}
