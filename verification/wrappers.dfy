/** Failure-compatible wrappers shared by every module of the model. */
module Wrappers {

  /** Python's `None`-or-value. */
  datatype Option<+T> = None | Some(value: T) {

    /** The value, or `default` when there is none (Python's `x if x is not None else default`). */
    function GetOr(default: T): T {
      match this
      case Some(v) => v
      case None => default
    }
  }

  /** A computation that either produced a value or raised; `error` is the exception text. */
  datatype Result<+T> = Success(value: T) | Failure(error: string)

  /** The text of the `AttributeError` Python raises for `x.attr` when an `owner` has no `attr`. */
  function MissingAttribute(owner: string, attr: string): string {
    "'" + owner + "' object has no attribute '" + attr + "'"
  }
}
