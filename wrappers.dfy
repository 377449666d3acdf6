/** Optional values and call results, standing in for nullable pointers and GError returns. */
module Wrappers {

  datatype Option<+T> = None | Some(value: T)

  /** The outcome of an asynchronous call: a value, or an error message. */
  datatype Result<+T> = Success(value: T) | Failure(error: string)
}
