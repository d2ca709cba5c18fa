/** Option and Result, the two failure-carrying shapes the model needs:
    Go's nil pointers and `(value, error)` returns become these. */
module Wrappers {

  datatype Option<+T> = None | Some(value: T)

  datatype Result<+R, +E> = Success(value: R) | Failure(error: E)
}
