/** Values that may be absent, and computations that may fail (Python's None and raised exceptions). */
module Base {

  datatype Option<+T> = None | Some(value: T)

  datatype Result<+T, +E> = Success(value: T) | Failure(error: E)
}
