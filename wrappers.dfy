/** Option and Result values used for absent settings and for the driver's
    "not initialized" error, instead of Python's None and raised exceptions. */
module Wrappers {

  datatype Option<+T> = None | Some(value: T)

  datatype Result<+T, +E> = Success(value: T) | Failure(error: E)
}
