/** Option and Result, shared by the other modules. */
module Wrappers {
  datatype Option<+T> = None | Some(value: T) {
    /** The value inside Some, or the given default. */
    function GetOr(default: T): T {
      match this
      case Some(v) => v
      case None => default
    }
  }

  datatype Result<+T, +E> = Ok(value: T) | Err(error: E)
}
