/** A value that may be absent: a DOM lookup or attribute read that can miss,
    or the one preference key in browser-local storage. */
module Opt {
  datatype Option<+T> = None | Some(value: T) {
    /** The contained value, or `default` when absent (the `x || default` idiom). */
    function GetOr(default: T): T {
      match this
      case Some(v) => v
      case None => default
    }
  }
}
