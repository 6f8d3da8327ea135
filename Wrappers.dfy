/** Option and Result values used across the model. */
module Wrappers {

  datatype Option<+T> = None | Some(value: T) {
    function GetOr(default: T): T {
      match this
      case Some(v) => v
      case None => default
    }
  }

  /** The outcome of a call the model does not see into (a fetch, a query). */
  datatype Result<+T, +E> = Ok(value: T) | Err(error: E)
}
