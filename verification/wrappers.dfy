/** Optional values and results with an error value, used wherever the
 *  source returns `null`/`undefined` or throws. */
module Wrappers {

  datatype Option<T> = None | Some(value: T)
  {
    /** The value, or `default` when there is none (JavaScript's `?? default`). */
    function GetOr(default: T): T
    {
      match this
      case None => default
      case Some(v) => v
    }
  }

  /** `Err(e)` stands for an exception thrown with message or payload `e`. */
  datatype Result<T, E> = Ok(value: T) | Err(error: E)
}
