/** Failure-carrying result types used in place of the source's exceptions and null references. */
module Wrappers {

  /** A possibly absent value; `None` stands for a C# `null` reference. */
  datatype Option<+T> = None | Some(value: T)

  /** Either a value or the error that was thrown instead of producing it. */
  datatype Result<+R, +E> = Ok(value: R) | Err(error: E)

  /** The outcome of an operation that produces no value but may throw. */
  datatype Outcome<+E> = Pass | Fail(error: E)
}
