/** Option and Result: the absent values and error returns of the Go code. */
module Wrappers {

  /** A value that may be missing (a Go nil pointer or an empty result). */
  datatype Option<+T> = None | Some(value: T)

  /** A value or an error (a Go `(value, error)` pair). */
  datatype Result<+R, +E> = Success(value: R) | Failure(error: E)
}
