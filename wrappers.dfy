/** Optional values, used for SQL NULL, absent query parameters and absent JSON fields. */
module Wrappers {

  datatype Option<+T> = None | Some(value: T)

  /** A store or parser outcome: a value, or a failure the caller must handle. */
  datatype Result<+T> = Success(value: T) | Failure(reason: string)
}
