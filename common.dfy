/** Small value wrappers shared by every module: a JavaScript `null`-or-value
    result and a value-or-thrown-error result. */
module Common {

  /** A value that may be absent (`null` or `undefined` in the client). */
  datatype Option<+T> = None | Some(value: T) {
    function GetOr(default: T): T {
      match this
      case Some(v) => v
      case None => default
    }
  }

  /** The outcome of an operation that may throw: its value, or the message of the `Error`. */
  datatype Result<+T> = Ok(value: T) | Err(message: string)
}
