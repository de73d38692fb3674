/** Optional and fallible results, used where the program either has no value
    (no vertex buffer) or raises (an out-of-range write while generating). */
module Wrappers {

  datatype Option<+T> = None | Some(value: T)

  datatype Result<+R, +E> = Success(value: R) | Failure(error: E)
}
