/** Failure-carrying datatypes shared by the modules of this model. */
module Wrappers {

  /** A value that may be absent: an option left out of an options object, or a null slot. */
  datatype Option<T> = None | Some(value: T) {
    function GetOr(default: T): (r: T)
      ensures Some? ==> r == value
      ensures None? ==> r == default
    {
      match this
      case Some(v) => v
      case None => default
    }
  }

  /** The value of an operation that either returns or throws. */
  datatype Result<T, E> = Ok(value: T) | Err(error: E)

  /** The outcome of an operation that returns nothing or throws. */
  datatype Outcome<E> = Pass | Fail(error: E)
}
