/** Optional values and fallible results, used for values that may be absent
    (a missing header) and for computations that may throw. */
module Wrappers {

  datatype Option<+T> = None | Some(value: T)

  datatype Result<+T, +E> = Ok(value: T) | Err(error: E)
}
