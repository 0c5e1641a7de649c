/** Option and Result: the model's stand-ins for `T | null` and for a call that can throw. */
module Wrappers {

  /** `None` is JavaScript's `null`/`undefined`; `Some(v)` a present value. */
  datatype Option<+T> = None | Some(value: T) {
    function GetOr(default: T): T {
      match this
      case Some(v) => v
      case None => default
    }
  }

  /** `Success(v)` is a returned value, `Failure(e)` a thrown one. */
  datatype Result<+R, +E> = Success(value: R) | Failure(error: E)
}
