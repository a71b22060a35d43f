/** Option, Result and Outcome: the model's stand-ins for Java's null and for
    exceptions that a call may throw. */
module Wrappers {

  /** A value that may be absent (Java's null). */
  datatype Option<+T> = None | Some(value: T) {
    function GetOr(default: T): T {
      match this
      case Some(v) => v
      case None => default
    }
  }

  /** A call that returns a value or throws an exception of kind E. */
  datatype Result<+T, +E> = Ok(value: T) | Err(error: E)

  /** A void call that completes or throws an exception of kind E. */
  datatype Outcome<+E> = Pass | Fail(error: E)
}
