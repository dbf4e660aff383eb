/** Failure-carrying result types shared by the parsers of this model. */
module Wrappers {

  /** A value that may be absent, as Python's `None` or a failed lookup. */
  datatype Option<+T> = None | Some(value: T) {

    /** The carried value, or `default` when there is none. */
    function GetOr(default: T): T
    {
      match this
      case Some(v) => v
      case None => default
    }
  }

  /** The outcome of an operation that raises in the source: a value or an error. */
  datatype Result<+R, +E> = Ok(value: R) | Err(error: E)
}
