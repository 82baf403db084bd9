/** Option and Result, the failure-carrying values used by the services. */
module Wrappers {

  /** A value that may be absent (a Java `null` or an empty `Optional`). */
  datatype Option<+T> = None | Some(value: T)

  /** Either a result or the error the Java code throws instead of returning. */
  datatype Result<+R, +E> = Success(value: R) | Failure(error: E)
}
