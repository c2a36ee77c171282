/** Optional values and success/failure results, used for JavaScript's
    `undefined`/`null` fields and for the errors the core throws. */
module Wrappers {

  datatype Option<+T> = None | Some(value: T)

  datatype Result<+T, +E> = Success(value: T) | Failure(error: E)
}
