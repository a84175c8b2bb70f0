/** Optional values and success/failure results, used wherever the front end
    deals with `null`/`undefined` or with a call that can fail. */
module Wrappers {

  datatype Option<+T> = None | Some(value: T)

  datatype Result<+R, +E> = Success(value: R) | Failure(error: E)
}
