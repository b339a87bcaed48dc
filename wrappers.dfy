/**
  Optional values, used where the source yields Python's None, and results
  that are either a value or the exception the source raises instead.
*/
module Wrappers {

  datatype Option<+T> = None | Some(value: T)

  datatype Result<+T, +E> = Success(value: T) | Failure(error: E)
}
