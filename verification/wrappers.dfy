/**
 * The optional value used throughout the model for JavaScript's `null`/`undefined`
 * (a missing DOM element, a missing dataset entry, an absent object field).
 */
module Wrappers {

  datatype Option<+T> = None | Some(value: T) {

    /** The contained value, or `default` when absent (JavaScript's `x ?? default`). */
    function GetOr(default: T): T {
      match this
      case Some(v) => v
      case None => default
    }
  }
}
