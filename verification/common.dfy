/** Failure-compatible wrappers shared by every service of the model. */
module Common {

  /** A Java reference that may be null, or a lookup that may find nothing. */
  datatype Option<+T> = None | Some(value: T) {
    function GetOr(default: T): T {
      match this
      case Some(v) => v
      case None => default
    }
  }

  /** The RuntimeExceptions the services throw, one constructor per cause. */
  datatype Error =
    | OrderNotFound          // "Order not found" / "Order not found with id: ..."
    | DuplicatePayment       // "Payment already exists for this order"
    | PaymentCreationFailed  // "Failed to create payment: ..."
    | InvalidSignature       // "Invalid signature"
    | PaymentNotFound        // "Payment not found" / "Payment not found for order: ..."
    | ProductNotFound        // "Product not found with id: ..."
    | DanglingProductReference // an order item whose product row no longer exists (EntityNotFoundException)
    | NullTransactionStatus  // a switch over a null String throws NullPointerException
    | NonUniqueResult        // a single-result repository query that matches several rows
    | NullId                 // `findById(null)` throws IllegalArgumentException

  /** The outcome of an operation: a value, or the exception it raised. */
  datatype Result<+T> = Ok(value: T) | Err(error: Error)
}
