/** Optional values and results with an error, as used throughout the model. */
module Wrappers {

  /** Python's `None` or a present value. */
  datatype Option<+T> = None | Some(value: T) {

    /** The value, or `default` when there is none. */
    function GetOr(default: T): T {
      if Some? then value else default
    }
  }

  /** A normal return (`Ok`) or a raised exception (`Err`). */
  datatype Result<+T, +E> = Ok(value: T) | Err(error: E)
}
