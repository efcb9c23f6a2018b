/** The optional-value datatype used wherever the source has `T | null` or an absent field. */
module Wrappers {

  datatype Option<+T> = None | Some(value: T) {

    /** The wrapped value, or `default` when there is none (JavaScript's `??`). */
    function GetOr(default: T): T {
      match this
      case Some(v) => v
      case None => default
    }
  }

  /** A value or the error that took its place (a thrown exception). */
  datatype Result<+T, +E> = Success(value: T) | Failure(error: E)
}
