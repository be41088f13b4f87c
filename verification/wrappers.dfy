/** Optional values and success/failure results, the shapes the application uses
    for "absent" JSON fields, failed lookups and refused operations. */
module Wrappers {

  /** A value that may be absent (`undefined` or `null` on the JavaScript side). */
  datatype Option<+T> = None | Some(value: T) {

    /** The wrapped value, or `default` when absent (JavaScript's `??`). */
    function GetOr(default: T): T {
      match this
      case Some(v) => v
      case None => default
    }
  }

  /** The outcome of an operation that either succeeds with a value or is refused with a message. */
  datatype Result<+R> = Success(value: R) | Failure(error: string)
}
