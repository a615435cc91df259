/** Optional values and results with an error reason. */
module Wrappers {

  /** `undefined`/`null` in the source become None. */
  datatype Option<+T> = None | Some(value: T) {
    function GetOr(default: T): T {
      match this
      case Some(v) => v
      case None => default
    }
  }

  /** A form submission either yields its value or is rejected with a reason. */
  datatype Result<+T, +E> = Ok(value: T) | Err(error: E)
}
