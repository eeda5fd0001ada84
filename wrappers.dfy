/** Small result types shared by the model. */
module Wrappers {

  /** A value that may be absent (JavaScript `undefined` / `null`). */
  datatype Option<+T> = None | Some(value: T)

  /** The outcome of one remote call: the returned payload, or the rejection
      with the `message` property of the error (empty when it has none). */
  datatype Reply<+T> = Ok(value: T) | Failed(message: string)
}
