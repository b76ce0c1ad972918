/** Option and Result, shared by both state machines. */
module Wrappers {

  /** A value that may be absent; `None` stands for JavaScript's `null` / `undefined`. */
  datatype Option<+T> = None | Some(value: T)

  /** The outcome of a call that may throw: `Err` carries the thrown value. */
  datatype Result<+T, +E> = Ok(value: T) | Err(error: E)
}
