/** Failure-compatible wrappers used throughout the model: an operation of the
    plugin either returns a value or raises one of the plugin's exceptions. */
module Wrappers {

  datatype Option<+T> = None | Some(value: T)

  /** The outcome of a computation that returns a value or throws. */
  datatype Result<+R, +E> = Success(value: R) | Failure(error: E)

  /** The outcome of a check that returns nothing or throws. */
  datatype Outcome<+E> = Pass | Fail(error: E)
}
