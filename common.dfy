/** Failure-carrying return values shared by every module of the model. */
module Common {

  datatype Option<+T> = None | Some(value: T) {
    function GetOr(default: T): T {
      match this
      case Some(v) => v
      case None => default
    }
  }

  /** The value of a Rust `Result<T, E>`. */
  datatype Result<+T, +E> = Success(value: T) | Failure(error: E)

  /** The value of a Rust `Result<(), E>`. */
  datatype Outcome<+E> = Pass | Fail(error: E)
}
