/** The outcome of an operation that may raise: a value, or the category of the error raised. */
module Results {

  datatype Result<+T, +E> = Success(value: T) | Failure(error: E)
}
