/** Option and Result: the model's stand-ins for Java's null returns and thrown exceptions. */
module Wrappers {

  /** `None` plays the part of a Java `null` return. */
  datatype Option<+T> = None | Some(value: T)

  /** `Failure` plays the part of an exception that leaves the called method. */
  datatype Result<+R, +E> = Success(value: R) | Failure(error: E)
}
