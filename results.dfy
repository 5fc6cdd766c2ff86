/** Optional values, results and the error kinds the services raise.
    The services throw `Error` objects carrying a status code; here every
    failure is a value of `Error`, returned through `Result`. */
module Results {

  datatype Option<+T> = None | Some(value: T)

  /** What a not-found error refers to. */
  datatype Missing = MissingProduct | MissingCart | MissingCartLine | MissingOrder

  datatype Error =
    | InvalidInput                       // malformed, missing or non-positive argument
    | NotFound(what: Missing, id: int)   // the referenced entity does not exist
    | InsufficientStock(productId: int)  // requested quantity exceeds available stock
    | InvalidTransition                  // order status change out of a terminal state
    | Internal                           // a failure of the store itself

  datatype Result<+T> = Ok(value: T) | Err(error: Error)
}
