/** Failure-carrying datatypes shared by every module of the farm model.

    A Java `null` result becomes `None`, and each checked or unchecked
    exception the core throws becomes one variant of `Error`, carried by
    `Result.Err`.
 */
module Wrappers {

  /** A value that may be absent (a Java reference that may be null). */
  datatype Option<+T> = None | Some(value: T)

  /** The exception classes thrown by the farm core. */
  datatype Error =
    | IllegalArgument      // java.lang.IllegalArgumentException
    | InvalidStockRequest  // farm.core.InvalidStockRequestException
    | FailedTransaction    // farm.core.FailedTransactionException
    | DuplicateCustomer    // farm.core.DuplicateCustomerException
    | CustomerNotFound     // farm.core.CustomerNotFoundException

  /** The outcome of an operation that either returns a value or throws. */
  datatype Result<+T> = Ok(value: T) | Err(error: Error)

  function Min(a: int, b: int): (m: int)
    ensures m <= a && m <= b
    ensures m == a || m == b
  {
    if a <= b then a else b
  }
}
