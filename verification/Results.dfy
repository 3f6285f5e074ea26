/** The error results of the protocol functions. */
module Results {
  datatype Error = InvalidSize | TooFewBits | EmptyInput | UnevenBatches | OutOfBounds

  datatype Result<+T> = Success(value: T) | Failure(error: Error) {
    predicate IsFailure() {
      Failure?
    }

    function PropagateFailure<U>(): (r: Result<U>)
      requires Failure?
    {
      Failure(error)
    }

    function Extract(): (r: T)
      requires Success?
    {
      value
    }
  }
}
