/** The optional-value wrapper used across the model. */
module Wrappers {

  /** A value that may be absent: JavaScript's `undefined` for an omitted argument or field. */
  datatype Option<+T> = None | Some(value: T) {

    /** The wrapped value, or `default` when absent. */
    function GetOr(default: T): T {
      match this
      case Some(v) => v
      case None => default
    }
  }
}
