/** Option and Result, the failure-carrying values the model uses in place of
    Go's `(value, error)` pairs and nil pointers. */
module Wrappers {

  datatype Option<+T> = None | Some(value: T)

  datatype Result<+R, +E> = Success(value: R) | Failure(error: E)
}
