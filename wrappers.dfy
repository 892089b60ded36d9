/** Option and Result, the two failure-carrying shapes the Rust code uses. */
module Wrappers {

  datatype Option<+T> = None | Some(value: T) {
    function GetOr(default: T): T
    {
      match this
      case Some(v) => v
      case None => default
    }
  }

  /** `Result<T, E>` of the Rust code: `Ok(value)` or `Err(error)`. */
  datatype Result<+T, +E> = Ok(value: T) | Err(error: E)
}
