/** Optional values (JavaScript's `undefined`/`null`) and the outcome of a call that may throw. */
module Wrappers {

  datatype Option<+T> = None | Some(value: T)

  /** A resolved promise carries `Success`, a rejected one carries `Failure` with the error message. */
  datatype Result<+R, +E> = Success(value: R) | Failure(error: E)
}
