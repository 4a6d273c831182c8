/** Failure-carrying datatypes shared by the models: a missing dictionary
    entry or a raised exception becomes a value instead of a precondition. */
module Wrappers {

  /** Some value, or nothing (Python's `None`). */
  datatype Option<+T> = None | Some(value: T)

  /** A value, or the exception the computation would raise. */
  datatype Result<+R, +E> = Success(value: R) | Failure(error: E)
}
