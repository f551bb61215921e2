/** Wrappers shared by every module of the model:
    Option for Python's `None`-or-value, Result for a value-or-exception,
    Outcome for a call that returns nothing but may raise. */
module Wrappers {

  datatype Option<+T> = None | Some(value: T) {
    function GetOr(default: T): T {
      match this
      case Some(v) => v
      case None => default
    }
  }

  datatype Result<+R, +E> = Success(value: R) | Failure(error: E)

  datatype Outcome<+E> = Pass | Fail(error: E)
}
