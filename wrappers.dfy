/** Optional values and results with an error, as the rest of the model uses them. */
module Wrappers {

  /** A value that may be missing (Python's None). */
  datatype Option<+T> = None | Some(value: T) {

    /** The value, or a default when there is none (dict.get(key, default)). */
    function GetOr(default: T): T {
      match this
      case Some(v) => v
      case None => default
    }
  }

  /** A computation that either produced a value or raised an error. */
  datatype Result<+T, +E> = Ok(value: T) | Err(error: E)
}
