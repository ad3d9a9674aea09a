/** Option and Result: the error paths of the modelled Python code (a raised
    exception, a missing value) become values of these types. */
module Wrappers {

  datatype Option<+T> = None | Some(value: T)

  datatype Result<+T, +E> = Success(value: T) | Failure(error: E)
}
