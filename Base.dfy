/** Small wrappers shared by every module: an optional value and the outcome of
    a call that may raise. A raised exception is represented by its message,
    i.e. what Python's `str(e)` would give. */
module Base {

  datatype Option<+T> = None | Some(value: T) {
    function GetOr(default: T): T {
      match this
      case Some(v) => v
      case None => default
    }
  }

  /** The result of an operation that returns a value or raises. */
  datatype Result<+T> = Ok(value: T) | Fault(reason: string)

  /** The result of an operation that returns nothing useful or raises. */
  datatype Outcome = Done | Failed(reason: string)
}
