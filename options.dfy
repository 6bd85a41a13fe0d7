/** Optional values and results, as the rest of the model uses them. */
module Options {

  /** `None` stands for Python's `None` and, in numeric columns, for
      pandas' missing value (NaN). */
  datatype Option<+T> = None | Some(value: T) {

    /** The value, or `default` when there is none. */
    function GetOr(default: T): T {
      match this
      case Some(v) => v
      case None => default
    }
  }

  /** The value a computation returns, or the exception it raises. */
  datatype Result<+T, +E> = Ok(value: T) | Err(error: E)
}
