/** Option and Result: the model's stand-ins for Java's `null` and for thrown exceptions. */
module Wrappers {

  /** `None` plays the part of a Java/Kotlin/Python `null`. */
  datatype Option<+T> = None | Some(value: T)

  /** `Err` carries the exception an operation throws instead of returning. */
  datatype Result<+T, +E> = Ok(value: T) | Err(error: E)
}
