/** Optional values (JavaScript's `undefined`) and success-or-error results (a thrown error). */
module Wrappers {

  datatype Option<+T> = None | Some(value: T) {
    /** The value, or `default` when there is none. */
    function GetOr(default: T): T {
      match this
      case Some(v) => v
      case None => default
    }
  }

  datatype Result<+T, +E> = Ok(value: T) | Err(error: E)
}
