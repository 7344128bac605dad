/** Optional values and results with an error, as used across the model. */
module Wrappers {

  /** A value that may be absent: JavaScript's `undefined`/`null` for a field, or NaN for a number. */
  datatype Option<+T> = None | Some(value: T) {

    /** The wrapped value, or `default` when absent. */
    function GetOr(default: T): T {
      match this
      case Some(v) => v
      case None => default
    }
  }

  /** Either a successful value or an error. */
  datatype Result<+T, +E> = Ok(value: T) | Err(error: E)
}
