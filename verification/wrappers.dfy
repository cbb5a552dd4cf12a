/** Optional values, used for every Python value that may be `None` and for
    every external call that may raise. */
module Wrappers {

  datatype Option<+T> = None | Some(value: T) {

    /** The value, or `default` when there is none. */
    function GetOr(default: T): T {
      match this
      case Some(v) => v
      case None => default
    }
  }

  /** The outcome of a request handler: a value, or the error that ended it. */
  datatype Result<+T, +E> = Ok(value: T) | Err(error: E)
}
