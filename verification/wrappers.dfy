/** Failure-carrying values shared by the other modules. */
module Wrappers {

  /** A value that may be absent: a missing JSON field or dictionary key, or Python's None. */
  datatype Option<T> = None | Some(value: T) {

    /** The value, or `default` when absent (Python's `dict.get(key, default)`). */
    function GetOr(default: T): T {
      match this
      case Some(v) => v
      case None => default
    }
  }

  /** The outcome of a call that may raise: `Ok` carries the value, `Err` the exception's text. */
  datatype Result<T, E> = Ok(value: T) | Err(error: E)
}
