/** Optional values and success/failure results, used for JavaScript's
    `null`-able fields and for the exceptions a parser may raise. */
module Wrappers {

  datatype Option<+T> = None | Some(value: T)

  datatype Result<+T, +E> = Success(value: T) | Failure(error: E)
}
