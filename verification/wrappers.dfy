/** The optional-value and value-or-error types shared by every module of the model. */
module Wrappers {

  /** A value that may be missing, as PHP's `null` stands in for one. */
  datatype Option<+T> = None | Some(value: T) {

    /** The carried value, or `default` when there is none. */
    function GetOr(default: T): T {
      match this
      case Some(v) => v
      case None => default
    }
  }

  /** Either a value or the error that prevented it. */
  datatype Result<+T, +E> = Success(value: T) | Failure(error: E)
}
