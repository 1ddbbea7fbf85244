/** Option, Result and Outcome values used in place of JavaScript's
    `undefined` and thrown exceptions. */
module Wrappers {

  /** A value that may be absent (`undefined` in the source). */
  datatype Option<+T> = None | Some(value: T)

  /** A computation that either yields a value or fails with an error. */
  datatype Result<+T, +E> = Ok(value: T) | Err(error: E)

  /** A computation that yields nothing but may fail. */
  datatype Outcome<+E> = Pass | Fail(error: E)
}
