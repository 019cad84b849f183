/** Optional values and results of operations that may raise. */
module Wrappers {

  datatype Option<+T> = None | Some(value: T) {
    function GetOr(default: T): T {
      match this
      case Some(v) => v
      case None => default
    }
  }

  /** The outcome of a step that may raise an exception: either a value or `Raised`. */
  datatype Result<+T> = Ok(value: T) | Raised
}
