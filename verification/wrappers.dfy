/** Failure-carrying datatypes shared by the model. */
module Wrappers {

  /** A value that may be missing: Java's `null` reference, or a JSON member that is absent. */
  datatype Option<+T> = None | Some(value: T)

  /** The outcome of a computation that may throw: a value or the exception that escaped. */
  datatype Result<+T, +E> = Success(value: T) | Failure(error: E)
}
