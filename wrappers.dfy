/** Failure-compatible wrappers used throughout the model: `Option` stands for a
    JavaScript value that may be `null`, `Result` for an operation that may throw. */
module Wrappers {

  datatype Option<+T> = None | Some(value: T) {
    /** `x ?? default` */
    function GetOr(default: T): T {
      match this
      case Some(v) => v
      case None => default
    }
  }

  datatype Result<+R, +E> = Success(value: R) | Failure(error: E)
}
