/** Failure-carrying values shared by every module of the model. */
module Wrappers {

  datatype Option<+T> = None | Some(value: T) {
    function GetOr(default: T): T {
      match this
      case Some(v) => v
      case None => default
    }
  }

  /** The model's error channel: an `Err` carries the message the program
      reports (or the message of the panic it models). */
  datatype Result<+T> = Ok(value: T) | Err(error: string)
}
