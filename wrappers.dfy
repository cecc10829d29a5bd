/** Option and Result: the values the model uses where the source returns None,
    prints an error and returns early, or raises. */
module Wrappers {

  datatype Option<+T> = None | Some(value: T)

  datatype Result<+R, +E> = Success(value: R) | Failure(error: E)
}
