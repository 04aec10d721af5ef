/** Failure-carrying result types used for the source's optionals and thrown errors. */
module Wrappers {

  /** A Swift optional: `nil` or a value. */
  datatype Option<+T> = None | Some(value: T) {
    function GetOr(default: T): T {
      match this
      case Some(v) => v
      case None => default
    }
  }

  /** The outcome of a Swift `throws` function: a value or the error it throws. */
  datatype Result<+T, +E> = Ok(value: T) | Err(error: E) {
    /** `try?`: every thrown error becomes `nil`. */
    function ToOption(): Option<T> {
      match this
      case Ok(v) => Some(v)
      case Err(_) => None
    }
  }
}
