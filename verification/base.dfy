/** Failure-carrying wrappers shared by the other modules: `Option` for values
    that a Python dict may lack, `Result` for operations that raise. */
module Base {

  /** A value that may be absent, as a `dict.get` without a default would return. */
  datatype Option<+T> = None | Some(value: T) {

    /** The value, or `default` when absent, as `dict.get(key, default)` returns. */
    function GetOr(default: T): T {
      match this
      case Some(v) => v
      case None => default
    }
  }

  /** The outcome of an operation that either returns a value or raises an error. */
  datatype Result<+T, +E> = Ok(value: T) | Err(error: E)
}
