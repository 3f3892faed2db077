/** Failure-compatible result types shared by the rest of the model. */
module Wrappers {

  /** A value that may be absent: a Go pointer that may be nil, or a parse that may fail. */
  datatype Option<+T> = None | Some(value: T)

  /** Either a value or an error, standing for Go's `(value, error)` return pairs. */
  datatype Result<+R, +E> = Success(value: R) | Failure(error: E)
}
