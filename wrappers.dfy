/** Optional values (TypeScript's `T | undefined` / `T | null`) and results of
    calls that may throw. */
module Wrappers {

  datatype Option<+T> = None | Some(value: T) {
    /** The `??` operator: the wrapped value, or `default` when absent. */
    function GetOr(default: T): T {
      match this
      case Some(v) => v
      case None => default
    }
  }

  /** The outcome of an operation that either returns a value or throws an
      `Error` carrying a message. */
  datatype Result<+R, +E> = Success(value: R) | Failure(error: E)
}
