/** Option and Result: the error paths of the Python code (a missing key, a
    failed HTTP call, an IndexError) become values instead of exceptions. */
module Wrappers {

  datatype Option<+T> = None | Some(value: T)

  datatype Result<+T, +E> = Success(value: T) | Failure(error: E)
}
