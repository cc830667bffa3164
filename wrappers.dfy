/** Option, the stand-in for Python's `None` and for JavaScript's `undefined`, and Attempt, the
    outcome of a call that either returns or raises. */
module Wrappers {

  datatype Option<+T> = None | Some(value: T) {

    /** `value` when present, otherwise `default` (Python's `d.get(k, default)`). */
    function GetOr(default: T): T {
      match this
      case Some(v) => v
      case None => default
    }
  }

  /** A call that returned `value`, or raised an exception whose `str(e)` is `error`. */
  datatype Attempt<+T> = Ok(value: T) | Failed(error: string)
}
