/** Optional values and results, used for the graph's optional keys and for
    the outcome of a call that can raise. */
module Wrappers {

  /** A dictionary entry that may be absent. */
  datatype Option<+T> = None | Some(value: T) {

    /** The entry's value, or `default` when it is absent (Python's `dict.get(key, default)`). */
    function GetOr(default: T): T {
      match this
      case Some(v) => v
      case None => default
    }
  }

  /** The outcome of a call that either returns a value or raises with a message. */
  datatype Result<+R, +E> = Success(value: R) | Failure(error: E)
}
