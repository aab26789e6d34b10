/** Option and Result, the two failure-carrying shapes the rest of the model uses. */
module Wrappers {

  /** An optional value: a missing field, an absent session, data not yet loaded. */
  datatype Option<+T> = None | Some(value: T) {

    /** The carried value, or `default` when there is none. */
    function GetOr(default: T): T {
      match this
      case Some(v) => v
      case None => default
    }
  }

  /** The outcome of an action or a parse: a value, or the error that was thrown. */
  datatype Result<+R, +E> = Success(value: R) | Failure(error: E)
}
