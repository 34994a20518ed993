/** The success/failure wrapper the model uses where the Python source raises. */
module Results {

  datatype Result<+T, +E> = Success(value: T) | Failure(error: E)
}
