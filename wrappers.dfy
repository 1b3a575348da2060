/** Option, the model's stand-in for Ruby's nil-or-value. */
module Wrappers {

  datatype Option<+T> = None | Some(value: T) {

    /** The value, or `default` when nil: Ruby's `x || default`. */
    function GetOr(default: T): T {
      match this
      case Some(v) => v
      case None => default
    }

    /** Ruby's `a || b` on two possibly-nil values. */
    function Or(other: Option<T>): Option<T> {
      if Some? then this else other
    }
  }
}
