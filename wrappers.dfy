/** Small failure-carrying datatypes shared by the other modules. */
module Wrappers {

  /** A value that may be absent (JavaScript's `undefined`). */
  datatype Option<+T> = None | Some(value: T)

  /** The outcome of an expression that may throw: its value, or the thrown error's message. */
  datatype Result<+R> = Ok(value: R) | Throws(message: string)
}
