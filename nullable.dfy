/** A value that may be absent: a field or attribute the storefront reads
    that is missing, `undefined` or, where a field's comment says so,
    `null`. */
module Nullable {

  datatype Option<+T> = None | Some(value: T) {

    /** The value, or `default` when absent (JavaScript's `x || default`
        for a value that is never falsy when present). */
    function GetOr(default: T): T {
      match this
      case Some(v) => v
      case None => default
    }
  }
}
