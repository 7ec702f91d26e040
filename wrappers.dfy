/** Optional values: a field or result that JavaScript leaves `undefined`. */
module Wrappers {

  datatype Option<+T> = None | Some(value: T) {

    /** The carried value, or `default` when there is none (JavaScript `x ?? default`). */
    function GetOr(default: T): T {
      match this
      case Some(v) => v
      case None => default
    }

    /** `other` when this is None: the right-biased overlay of one optional field onto another. */
    function Or(other: Option<T>): Option<T> {
      if Some? then this else other
    }
  }
}
