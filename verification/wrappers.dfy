/** Option and Result, the two failure-carrying shapes the handlers work with. */
module Wrappers {

  /** A value that may be absent: an unset header, a nil error. */
  datatype Option<+T> = None | Some(value: T)

  /** The outcome of a step that can fail with an error value (Go's `(T, error)` pair). */
  datatype Result<+R, +E> = Success(value: R) | Failure(error: E)
}
