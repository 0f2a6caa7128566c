/** Optional values and results that either carry a value or the exception
    the modelled Python code would raise. */
module Wrappers {

  /** Python's `None` versus a present value. */
  datatype Option<+T> = None | Some(value: T) {

    /** The present value, or `default` when absent (Python's `d.get(k, default)`). */
    function GetOr(default: T): (r: T)
      ensures Some? ==> r == value
      ensures None? ==> r == default
    {
      match this
      case Some(v) => v
      case None => default
    }
  }

  /** A computation that either returns normally or raises an exception. */
  datatype Result<+T, +E> = Success(value: T) | Failure(error: E)
}
