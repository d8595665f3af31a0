/** Option and Result, used for Go's nil-able values and (value, error) pairs. */
module Wrappers {
  datatype Option<+T> = None | Some(value: T)

  datatype Result<+R, +E> = Success(value: R) | Failure(error: E)
}
