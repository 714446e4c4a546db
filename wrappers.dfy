/** Optional values and results, used wherever the source returns None or raises. */
module Wrappers {

  datatype Option<+T> = None | Some(value: T)

  datatype Result<+R, +E> = Ok(value: R) | Err(error: E)
}
