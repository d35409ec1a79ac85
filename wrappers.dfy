/** Failure-carrying values used in place of Java's null returns and exceptions. */
module Wrappers {

  /** A value that may be absent (a Java reference that may be null). */
  datatype Option<+T> = None | Some(value: T)

  /** The result of a call that either returns a value or throws. */
  datatype Result<+T, +E> = Ok(value: T) | Err(error: E)

  /** The result of a void call that either returns normally or throws. */
  datatype Outcome<+E> = Pass | Fail(error: E)
}
