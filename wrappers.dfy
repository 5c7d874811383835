/** Optional values and typed results, used in place of Python's None and
    of the exceptions the stream consumer catches. */
module Wrappers {

  datatype Option<+T> = None | Some(value: T)

  datatype Result<+T, +E> = Ok(value: T) | Err(error: E)
}
