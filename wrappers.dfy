/** Failure-carrying values: PHP's null, its exceptions and its void-or-throw calls. */
module Wrappers {

  /** A value that may be absent (PHP null). */
  datatype Option<+T> = None | Some(value: T)

  /** A value, or the exception raised instead of returning it. */
  datatype Result<+T, +E> = Success(value: T) | Failure(error: E)

  /** A call that returns nothing, or the exception it raised. */
  datatype Outcome<+E> = Pass | Fail(error: E)
}
