/** The optional value used wherever the source has `undefined`, `null` or `-Infinity`, and the outcome of an operation that can throw. */
module Wrappers {
  datatype Option<+T> = None | Some(value: T) {
    function GetOr(default: T): T {
      match this
      case Some(v) => v
      case None => default
    }
  }

  /** A value, or the message of the error the source throws instead. */
  datatype Result<+T> = Ok(value: T) | Err(error: string)
}
