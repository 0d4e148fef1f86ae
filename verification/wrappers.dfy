/** Failure-compatible wrappers shared by every module of the model.

Python's `None` becomes `Option.None`; a raised exception that the caller
catches becomes `Result.Err` carrying what the handler needs to know.
 */
module Wrappers {

  datatype Option<+T> = None | Some(value: T) {

    /** The value, or `default` for `None` (Python's `d.get(k, default)`). */
    function GetOr(default: T): T {
      match this
      case Some(v) => v
      case None => default
    }
  }

  datatype Result<+T, +E> = Ok(value: T) | Err(error: E) {

    /** Drops the error, keeping only whether a value was produced. */
    function ToOption(): Option<T> {
      match this
      case Ok(v) => Some(v)
      case Err(_) => None
    }
  }
}
