/** Failure-compatible wrappers shared by every module of the model. */
module Types {

  /** A value that may be absent: JavaScript's `null` / `undefined`. */
  datatype Option<T> = None | Some(value: T)
  {
    /** `x ?? d` */
    function GetOr(default: T): T
    {
      match this
      case Some(v) => v
      case None => default
    }
  }

  /** The outcome of an operation that may throw. */
  datatype Result<T, E> = Success(value: T) | Failure(error: E)
}
