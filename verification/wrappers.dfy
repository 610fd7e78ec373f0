/** Optional values: the model's stand-in for Python's `None` and for
    pandas' missing (`NaN`) cells. */
module Wrappers {

  datatype Option<+T> = None | Some(value: T) {

    /** The value in Some, or `default` for None. */
    function GetOr(default: T): T {
      match this
      case Some(v) => v
      case None => default
    }
  }
}
