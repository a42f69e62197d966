/** Failure-compatible wrappers shared by every module of the model. */
module Wrappers {

  /** A value that may be missing: a dictionary key that is absent, a None return. */
  datatype Option<+T> = None | Some(value: T) {
    function GetOr(default: T): T {
      match this
      case Some(v) => v
      case None => default
    }
  }

  /** The outcome of an operation that can raise: the value, or the exception's message. */
  datatype Result<+T> = Ok(value: T) | Err(error: string)
}
