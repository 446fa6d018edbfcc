/** Optional values and error-carrying results, used wherever the app
    reads a possibly-missing value or catches an exception. */
module Wrappers {

  datatype Option<+T> = None | Some(value: T)

  datatype Result<+T, +E> = Ok(value: T) | Err(error: E)
}
