/** Option and Result, the two failure-carrying shapes the model uses for Go's
    `(value, error)` pairs and for a nil-or-non-nil `error`. */
module Wrappers {

  /** `None` is Go's nil; `Some(v)` a non-nil value. */
  datatype Option<+T> = None | Some(value: T)

  /** The `(value, error)` result of a Go call, with exactly one side meaningful. */
  datatype Result<+R, +E> = Success(value: R) | Failure(error: E)
}
