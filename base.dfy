/** Small failure-carrying datatypes shared by the other modules. */
module Base {

  /** A value that may be absent (Python's `None`). */
  datatype Option<+T> = None | Some(value: T) {
    function GetOr(default: T): T {
      match this
      case Some(v) => v
      case None => default
    }
  }

  /** The outcome of an operation that raises in the source. */
  datatype Result<+R, +E> = Ok(value: R) | Err(error: E)
}
