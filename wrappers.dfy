/** Option and Result, the stock failure-carrying datatypes used by every other module. */
module Wrappers {

  /** A value that may be missing: Go's `(v, ok)` pairs and nil-able pointers. */
  datatype Option<+T> = None | Some(value: T)

  /** A computed value or an error: Go's `(v, err)` returns. */
  datatype Result<+R, +E> = Success(value: R) | Failure(error: E)
}
