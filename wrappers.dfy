/** Optional values and results with an error path, for the source's nulls and exceptions. */
module Wrappers {
  datatype Option<T> = None | Some(value: T)

  datatype Result<T> = Success(value: T) | Failure
}
