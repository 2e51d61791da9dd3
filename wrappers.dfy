/** Option and Result values for the partial operations of the model:
    lookups that may find nothing and operations that raise in the original. */
module Wrappers {

  datatype Option<+T> = None | Some(value: T)

  datatype Result<+R, +E> = Success(value: R) | Failure(error: E)
}
