/** Failure-compatible wrappers shared by the model: JavaScript's `null`
    or `undefined` becomes `None`, a rejected promise becomes `Err`. */
module Wrappers {

  datatype Option<+T> = None | Some(value: T)

  datatype Result<+T> = Ok(value: T) | Err(message: string)
}
