/** The conventional optional value, standing for Ruby's `nil`. */
module Wrappers {
  datatype Option<+T> = None | Some(value: T) {
    /** `x || default`: the wrapped value, or the default when absent. */
    function GetOr(default: T): T {
      match this
      case Some(v) => v
      case None => default
    }
  }
}

/**
 * Timestamps on the local wall clock, as an abstract ordered value: the
 * model only stores, passes on and compares them, so sub-second precision
 * plays no part.
 */
module Clock {
  type Time = int
}
