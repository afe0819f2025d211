/** Outcome of a computation that Python may abort with an exception. */
module Results {

  /** The one exception the similarity pipeline can raise: a division by a zero-sized union. */
  datatype Error = ZeroDivisionError

  datatype Result<+T> = Success(value: T) | Failure(error: Error)
}
