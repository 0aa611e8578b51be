/** Go's nil-able pointers and `(value, error)` returns, as plain datatypes. */
module Wrappers {

  /** A Go pointer that may be nil: `None` is nil, `Some(v)` points at `v`. */
  datatype Option<+T> = None | Some(value: T)

  /** A Go `(value, error)` pair where exactly one side is meaningful. */
  datatype Result<+R, +E> = Success(value: R) | Failure(error: E)
}
