/** Option, Result and Outcome, shared by the whole model. */
module Wrappers {

  /** A value that may be absent: PHP's `null` in a nullable position. */
  datatype Option<+T> = None | Some(value: T)

  /** Either a value or an error; used for calls that may throw. */
  datatype Result<+R, +E> = Success(value: R) | Failure(error: E)

  /** Success without a value, or an error; used for `void` calls that may throw. */
  datatype Outcome<+E> = Pass | Fail(error: E)
}
