/** The optional-value datatype used throughout the model for JavaScript's
    `undefined`/absent fields and for operations that may throw. */
module Wrappers {

  datatype Option<+T> = None | Some(value: T)
  {
    /** The value, or `default` when absent (JavaScript's `x || default` on an optional field). */
    function GetOr(default: T): T
    {
      match this
      case Some(v) => v
      case None => default
    }
  }
}
