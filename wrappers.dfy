/** Option, Result and Outcome: the null/undefined values, thrown errors and
    rejected promises of the system, made explicit. */
module Wrappers {

  datatype Option<+T> = None | Some(value: T) {
    /** `x || default` and `x ?? default` for a value that may be missing. */
    function GetOr(default: T): T {
      match this
      case Some(v) => v
      case None => default
    }
  }

  /** A value, or the message of the error that was thrown instead. */
  datatype Result<+T> = Ok(value: T) | Err(error: string) {
    predicate IsOk() { Ok? }
  }

  /** A promise that resolves with nothing, or rejects with a message. */
  datatype Outcome = Pass | Fail(error: string)
}
