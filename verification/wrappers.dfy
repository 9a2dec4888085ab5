/** Failure-compatible optional values shared by every module of the model. */
module Wrappers {

  /** A value that may be absent: a missing JSON store, a missing form field, an unset variable. */
  datatype Option<+T> = None | Some(value: T) {

    /** Returns the wrapped value, or `default` when there is none. */
    function GetOr(default: T): (r: T)
      ensures Some? ==> r == value
      ensures None? ==> r == default
    {
      match this
      case Some(v) => v
      case None => default
    }
  }
}
