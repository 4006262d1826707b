/** Result and option types shared by every module, and the clock. */
module Base {

  /** A value that may be absent: PHP's `null`, a missing array key, an unset column. */
  datatype Option<+T> = None | Some(value: T) {
    function GetOr(default: T): T {
      match this
      case Some(v) => v
      case None => default
    }
  }

  /** A `WP_Error`-or-value return. */
  datatype Result<+T, +E> = Ok(value: T) | Err(error: E)

  /** `current_time('mysql')`, kept as seconds since the epoch. */
  type Time = int
}
