/** Failure-carrying wrappers used for the source's `undefined` results and thrown errors. */
module Wrappers {

  /** A value that may be absent (`undefined` in the source). */
  datatype Option<+T> = None | Some(value: T) {
    function GetOr(default: T): T {
      match this
      case Some(v) => v
      case None => default
    }
  }

  /** Either a result or the error the source would throw. */
  datatype Result<+T, +E> = Ok(value: T) | Err(error: E)

  /** A check that either passes or throws. */
  datatype Outcome<+E> = Pass | Fail(error: E)
}
