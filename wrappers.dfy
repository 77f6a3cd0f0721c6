/**
 * Option and Result: the value-or-nothing type used wherever PHP returns
 * `null`, `false` or leaves a key unset, and the value-or-error type used
 * where the plugin throws an `Exception` with a message.
 */
module Wrappers {

  datatype Option<+T> = None | Some(value: T) {

    /** The value, or `default` when there is none (PHP's `??`). */
    function GetOr(default: T): T {
      match this
      case Some(v) => v
      case None => default
    }
  }

  datatype Result<+T> = Success(value: T) | Failure(error: string)
}
