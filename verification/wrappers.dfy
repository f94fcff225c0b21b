/** Failure-carrying result types shared by the vehicle and garage modules. */
module Wrappers {

  /** An optional value; stands in for a nullable reference. */
  datatype Option<+T> = None | Some(value: T)

  /** The outcome of an operation that either produces a value or raises an error. */
  datatype Result<+T, +E> = Ok(value: T) | Err(error: E)
}
