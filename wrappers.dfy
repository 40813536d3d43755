/** Failure-compatible wrappers used by the rest of the model. */
module Wrappers {

  /** A value that may be absent (a Python `None`, an unset variable). */
  datatype Option<+T> = None | Some(value: T)

  /** A computation that either produced a value or raised an error. */
  datatype Result<+T, +E> = Success(value: T) | Failure(error: E)
}
