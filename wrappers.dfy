/** Optional values and error-or-value results. */
module Wrappers {

  /** A value that may be absent: `undefined`/`null` in the application. */
  datatype Option<+T> = None | Some(value: T) {

    /** The value, or `default` when absent (`x ?? default`). */
    function GetOr(default: T): T {
      match this
      case Some(v) => v
      case None => default
    }
  }

  /** Either an accepted value or the reason it was refused. */
  datatype Result<+T, +E> = Ok(value: T) | Err(error: E)
}
