/** Failure-carrying wrappers shared by every module of the model. */
module Wrappers {

  /** Python's `None` or a present value. */
  datatype Option<+T> = None | Some(value: T) {

    /** The value, or `default` when absent (Python's `d.get(k, default)` shape). */
    function GetOr(default: T): T
    {
      match this
      case Some(v) => v
      case None => default
    }
  }

  /** A value or the exception that replaced it. */
  datatype Result<+R, +E> = Ok(value: R) | Err(error: E)
}
