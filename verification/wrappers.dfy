/** Failure-compatible wrappers used across the model: `Option` stands for a
    TypeScript value that may be `null`/`undefined`, `Result` for an operation
    that either returns a value or throws an `Error` with a message. */
module Wrappers {

  datatype Option<+T> = None | Some(value: T) {

    /** Returns the wrapped value, or `default` when there is none (the `??` operator). */
    function GetOr(default: T): T {
      match this
      case Some(v) => v
      case None => default
    }
  }

  datatype Result<+R, +E> = Success(value: R) | Failure(error: E)
}
