/** Option, Result and Outcome: the Rust `Option`, `Result<T, E>` and `Result<(), E>` shapes. */
module Wrappers {

  datatype Option<+T> = None | Some(value: T) {
    function GetOr(default: T): T {
      match this
      case Some(v) => v
      case None => default
    }
  }

  datatype Result<+R, +E> = Success(value: R) | Failure(error: E)

  /** A result that carries no value on success, as `Result<(), E>` does. */
  datatype Outcome<+E> = Pass | Fail(error: E)
}
