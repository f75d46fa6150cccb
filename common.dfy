/** Option and Result values used for Python's None and for raised exceptions. */
module Common {

  datatype Option<+T> = None | Some(value: T) {
    function GetOr(default: T): T {
      match this
      case Some(v) => v
      case None => default
    }
  }

  /** Ok carries a return value; Err carries the exception the source raises instead. */
  datatype Result<+T, +E> = Ok(value: T) | Err(error: E)

  /** An operation that returns nothing or raises. */
  datatype Outcome<+E> = Pass | Fail(error: E)
}
