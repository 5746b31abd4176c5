/** Option and Result, the failure-carrying datatypes every other module uses.
    `Result.Err` stands for a thrown JavaScript `Error`; its payload is the
    error's `message`. */
module Wrappers {

  datatype Option<+T> = None | Some(value: T) {

    /** The value in Some, or `default` when None. */
    function GetOr(default: T): T {
      match this
      case Some(v) => v
      case None => default
    }
  }

  datatype Result<+T> = Ok(value: T) | Err(message: string) {

    predicate IsFailure() {
      Err?
    }
  }
}
