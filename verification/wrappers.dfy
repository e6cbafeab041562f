/** Failure-compatible wrappers shared by the rest of the model. */
module Wrappers {

  /** A value that may be absent: Python's `None` or a missing attribute. */
  datatype Option<+T> = None | Some(value: T) {

    /** The wrapped value, or `default` when absent. */
    function GetOr(default: T): T {
      match this
      case Some(v) => v
      case None => default
    }
  }

  /** Either a value or the error a Python call would have raised. */
  datatype Result<+R, +E> = Success(value: R) | Failure(error: E)
}
