/** Failure-compatible wrappers shared by every module of the model. */
module Wrappers {

  /** A value that may be absent (Ruby's `nil` where the source returns one). */
  datatype Option<+T> = None | Some(value: T)

  /** The outcome of an operation that can raise in the source. */
  datatype Result<+T, +E> = Success(value: T) | Failure(error: E)
}
