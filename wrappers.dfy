/** Optional values and results: the model's stand-ins for `undefined`, SQL NULL and a thrown error. */
module Wrappers {

  datatype Option<+T> = None | Some(value: T) {

    /** The value, or `default` when there is none (JavaScript's `??`). */
    function GetOr(default: T): T {
      match this
      case Some(v) => v
      case None => default
    }
  }

  /** A value, or the message of the error thrown instead. */
  datatype Result<+T> = Ok(value: T) | Err(error: string)
}
