/** Optional values and error-carrying results, used where the source returns
    `None` or raises an exception that callers see. */
module Wrappers {

  datatype Option<T> = None | Some(value: T)

  /** A value, or the message of the exception the source would raise. */
  datatype Result<T> = Success(value: T) | Failure(error: string)
}
