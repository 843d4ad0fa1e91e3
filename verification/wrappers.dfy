/** Option and Result values used throughout the model. */
module Wrappers {

  /** An absent value (JavaScript `undefined`, `null` or `NaN`) or a present one. */
  datatype Option<+T> = None | Some(value: T) {

    /** The value, or `default` when absent. */
    function GetOr(default: T): T {
      match this
      case Some(v) => v
      case None => default
    }
  }

  /** The outcome of an operation that may throw. */
  datatype Result<+T, +E> = Success(value: T) | Failure(error: E)
}
