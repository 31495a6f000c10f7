/** The optional values of the model: a Java reference that may be null is an Option. */
module Wrappers {

  datatype Option<+T> = None | Some(value: T) {

    /** The value, or `default` when there is none (Java's `x != null ? x : default`). */
    function GetOr(default: T): (r: T)
      ensures Some? ==> r == value
      ensures None? ==> r == default
    {
      match this
      case Some(v) => v
      case None => default
    }
  }

  /** The outcome of an operation that either completes or throws the named exception. */
  datatype Outcome<+E> = Pass | Fail(error: E)
}
