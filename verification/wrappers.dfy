/** Nullable values and caught exceptions. */
module Wrappers {

  /** A value that may be `null`: `None` plays the part of C#'s `null`. */
  datatype Option<+T> = None | Some(value: T) {

    /** The `??` operator: the value, or `default` when it is `null`. */
    function GetOr(default: T): T {
      match this
      case Some(v) => v
      case None => default
    }
  }

  /** The outcome of a call that may throw: `Error` stands for any exception its caller catches. */
  datatype Result<+T> = Ok(value: T) | Error {

    /** `Ok` as a present value, `Error` as `null`. */
    function ToOption(): Option<T> {
      match this
      case Ok(v) => Some(v)
      case Error => None
    }
  }
}
