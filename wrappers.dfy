/** Optional values and results: Java's `null` and thrown exceptions, made explicit. */
module Wrappers {

  datatype Option<+T> = None | Some(value: T)

  /** `Err` carries the message of the exception the Java code would throw. */
  datatype Result<+T> = Ok(value: T) | Err(message: string)
}
