/** Option and Result, the shapes the model uses for Python's `None` and for
    calls that either return a value or raise. */
module Wrappers {

  datatype Option<+T> = None | Some(value: T) {

    /** The value, or `default` when there is none (Python's `x or default`
        restricted to `None`). */
    function GetOr(default: T): T
    {
      match this
      case Some(v) => v
      case None => default
    }
  }

  /** The result of a call that returns a value or raises an exception whose
      `str(e)` is the error text. */
  datatype Result<+T> = Ok(value: T) | Err(error: string)
}
