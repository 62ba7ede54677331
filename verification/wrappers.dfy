/** Option and Result: the absent value (Go's nil) and a value-or-error outcome. */
module Wrappers {

  datatype Option<+T> = None | Some(value: T)

  datatype Result<+R, +E> = Success(value: R) | Failure(error: E)
}
