/** Optional values, the model's stand-in for the source's `Option` and for results whose error text does not matter. */
module Wrappers {
  datatype Option<+T> = None | Some(value: T) {
    function UnwrapOr(default: T): (r: T) {
      match this
      case Some(v) => v
      case None => default
    }
  }
}
