/** Failure-compatible wrappers shared by the other modules: `Option` stands for
    a C# reference that may be null, `Result` for a call that either returns a
    value or throws. */
module Wrappers {

  datatype Option<+T> = None | Some(value: T) {
    function GetOr(default: T): T {
      match this
      case Some(v) => v
      case None => default
    }
  }

  datatype Result<+T, +E> = Ok(value: T) | Err(error: E)
}
