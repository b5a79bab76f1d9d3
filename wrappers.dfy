/** Option and Result, the two failure-carrying datatypes the model uses. */
module Wrappers {

  datatype Option<+T> = None | Some(value: T)

  /** Either a value or the error a Python call would have raised instead. */
  datatype Result<+T, +E> = Success(value: T) | Failure(error: E)
}
