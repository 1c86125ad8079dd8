/** Optional values: the model's stand-in for JavaScript's `undefined`. */
module Wrappers {

  datatype Option<+T> = None | Some(value: T) {

    /** The held value, or `default` when there is none. */
    function GetOr(default: T): T {
      match this
      case Some(v) => v
      case None => default
    }
  }
}
