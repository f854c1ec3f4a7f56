/** Failure-carrying result types shared by every module of the model. */
module Wrappers {

  /** A value that may be absent: Java's `Optional` and nullable references. */
  datatype Option<+T> = None | Some(value: T)

  /** The outcome of an operation that may throw: `Ok` on a normal return,
      `Err` with the exception the Java code would raise. */
  datatype Result<+T, +E> = Ok(value: T) | Err(error: E)
}
