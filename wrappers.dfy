/** Optional values and results with an error, used wherever the services
    return None, raise, or answer with an HTTP error. */
module Wrappers {

  datatype Option<+T> = None | Some(value: T)

  datatype Result<+T, +E> = Ok(value: T) | Err(error: E)
}
