/** Outcomes of a read from a binary buffer. */
module Results {

  /** The one failure a read can raise: the bytes it needs lie outside the buffer. */
  datatype Error = RangeError

  /** A decoded value, or the error the read raised. */
  datatype Result<+T> = Success(value: T) | Failure(error: Error)
}
