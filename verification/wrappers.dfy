/** Failure-carrying datatypes shared by the rest of the model. */
module Wrappers {

  /** An optional value; stands for JavaScript's `null`/`undefined` results. */
  datatype Option<+T> = None | Some(value: T) {

    /** The value inside `Some`, or `default` for `None`. */
    function GetOr(default: T): T {
      match this
      case Some(v) => v
      case None => default
    }
  }

  /** A value or an error; stands for a promise that resolves or rejects. */
  datatype Result<+R, +E> = Success(value: R) | Failure(error: E)
}
