/** Optional values and success-or-error results, used where the source returns None
    or raises an exception. */
module Wrappers {

  datatype Option<T> = None | Some(value: T) {
    /** The wrapped value, or `default` when there is none. */
    function GetOr(default: T): T
    {
      if Some? then value else default
    }
  }

  datatype Result<T, E> = Ok(value: T) | Err(error: E)
}
