/** Small sum types shared by the other modules. A Go pair `(*T, error)` in
    which exactly one side is non-nil becomes a `Result`. */
module Wrappers {

  /** A value that may be absent: what a lookup or a parse yields when it can fail
      without saying why. */
  datatype Option<+T> = None | Some(value: T) {

    /** Returns the value in Some, or `default` if None. */
    function GetOr(default: T): T {
      match this
      case Some(v) => v
      case None => default
    }
  }

  /** Either a successful value (`(v, nil)` in Go) or an error (`(nil, err)` in Go). */
  datatype Result<+R, +E> = Success(value: R) | Failure(error: E)
}
