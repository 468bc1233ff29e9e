/** Failure-carrying wrappers used by every handler of the order lifecycle. */
module Wrappers {

  /** A value that may be absent: a missing document, an undefined request field. */
  datatype Option<+T> = None | Some(value: T) {
    function GetOr(default: T): T {
      match this
      case Some(v) => v
      case None => default
    }
  }

  /** The outcome of a handler: the state it would save, or the error it answers with. */
  datatype Result<+T, +E> = Ok(value: T) | Err(error: E)
}
