/** Optional values and success-or-error results, used wherever the JavaScript
    code has `undefined` or throws. */
module Wrappers {

  /** An absent (`None`) or present (`Some`) value */
  datatype Option<+T> = None | Some(value: T)

  /** The value of a call that returned, or the message of the error it threw */
  datatype Result<+T, +E> = Success(value: T) | Failure(error: E)
}
