/** Option, Result and Outcome: the error channel of the store commands. */
module Wrappers {

  datatype Option<+T> = None | Some(value: T)

  /** The value of a command that yields something or fails with an error. */
  datatype Result<+R, +E> = Ok(value: R) | Err(error: E)

  /** The value of a command that yields nothing on success (Rust's `Result<()>`). */
  datatype Outcome<+E> = Pass | Fail(error: E)
}
