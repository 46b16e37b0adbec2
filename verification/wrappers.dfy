/** Option and Result values used across the model in place of `null`/`undefined`
    and of thrown errors. */
module Wrappers {

  datatype Option<+T> = None | Some(value: T) {
    function GetOr(default: T): T {
      match this
      case Some(v) => v
      case None => default
    }
  }

  /** A call that either returns a value or throws an error (an Error's message). */
  datatype Result<+T> = Ok(value: T) | Err(message: string)
}
