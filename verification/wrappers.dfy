/** Java's nullable references and thrown runtime exceptions, as values. */
module Wrappers {

  /** A possibly-null reference: `None` is Java's `null` (or JavaScript's `undefined`). */
  datatype Option<+T> = None | Some(value: T) {

    /** The wrapped value, or `default` when there is none. */
    function GetOr(default: T): T
    {
      match this
      case Some(v) => v
      case None => default
    }

    /** The partial-update rule: a present value wins, an absent one keeps `current`. */
    function Or(current: Option<T>): (r: Option<T>)
      ensures Some? ==> r == this
      ensures None? ==> r == current
    {
      if Some? then this else current
    }
  }

  /** The value an operation returns, or the message of the exception it throws. */
  datatype Result<+T> = Ok(value: T) | Err(error: string)
}
