/** Optional values and failure-carrying results, shared by every module. */
module Wrappers {

  /** A value that may be absent: JavaScript's `null` / `undefined`. */
  datatype Option<T> = None | Some(value: T) {
    function GetOr(default: T): T {
      if Some? then value else default
    }
  }

  /** The value of an operation that can throw instead of returning. */
  datatype Result<T, E> = Ok(value: T) | Err(error: E)

  /** The outcome of an operation that returns nothing but can throw. */
  datatype Outcome<E> = Pass | Fail(error: E)
}
