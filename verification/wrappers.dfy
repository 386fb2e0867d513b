/** Optional values and the outcome of a call that may throw. */
module Wrappers {

  /** A value that may be absent (JavaScript's `undefined`, or a falsy field). */
  datatype Option<+T> = None | Some(value: T)

  /** The outcome of an awaited call: the value it resolved to, or the message of
      the error it threw. */
  datatype Result<+T> = Ok(value: T) | Err(message: string)
}
