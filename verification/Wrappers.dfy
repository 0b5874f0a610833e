/** Optional values, and results that may be errors. */
module Wrappers {
  datatype Option<+T> = None | Some(value: T)
  datatype Result<+T> = Success(value: T) | Failure(error: string)
}
