/** The two "maybe" shapes the components use: a JavaScript value that may be
    `null` or `undefined` (both become `None`), and the outcome of a call into
    the remote data store. */
module Wrappers {

  datatype Option<+T> = None | Some(value: T) {

    /** `value ?? d`: the wrapped value, or `d` when there is none. */
    function GetOr(d: T): T {
      match this
      case Some(v) => v
      case None => d
    }
  }

  /** What a data-store call returns: the row it produced, or an error message. */
  datatype Result<+T> = Success(value: T) | Failure(error: string)
}
