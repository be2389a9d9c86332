/** Optional values: the model's stand-in for pandas/numpy NaN and for
    Python's None. */
module Wrappers {

  datatype Option<+T> = None | Some(value: T) {

    /** Returns the value held by Some, or the default for None. */
    function GetOr(default: T): T {
      match this
      case Some(v) => v
      case None => default
    }
  }

  /** A computation that either succeeds or stops with an error, the model of
      an exception the source lets escape. */
  datatype Result<+T, +E> = Ok(value: T) | Err(error: E)
}
