/** Failure-carrying wrappers: Java's nullable references and thrown exceptions become values. */
module Wrappers {

  /** A Java reference that may be null: `None` is null. */
  datatype Option<+T> = None | Some(value: T)

  /** The value a Java call returns, or the exception it throws. */
  datatype Result<+T, +E> = Ok(value: T) | Err(error: E)

  /** A `void` Java call: it completes, or it throws. */
  datatype Outcome<+E> = Pass | Fail(error: E)
}
