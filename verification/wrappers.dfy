/** Failure-carrying results for operations of the trading bot that throw. */
module Wrappers {

  /** The outcome of an operation that returns nothing but may throw an error. */
  datatype Outcome<E> = Pass | Fail(error: E)

  /** The outcome of an operation that returns a value or throws an error. */
  datatype Result<T, E> = Ok(value: T) | Err(error: E)
}
