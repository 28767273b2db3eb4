/** Optional values and results, as the rest of the model uses them. */
module Wrappers {

  /** An optional value; `None` stands for JavaScript's `null` or `undefined`. */
  datatype Option<+T> = None | Some(value: T) {

    /** The wrapped value, or `default` when there is none. */
    function GetOr(default: T): T {
      if Some? then value else default
    }
  }

  /** What an operation that may throw produces: a value, or the error it raised. */
  datatype Result<+T, +E> = Ok(value: T) | Err(error: E)
}
