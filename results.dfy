/** Success/failure wrappers used for the operations' outcomes. */
module Results {

  datatype Option<+T> = None | Some(value: T)

  /** The outcome of a PHP call: a returned value, or the error it throws. */
  datatype Result<+R, +E> = Success(value: R) | Failure(error: E)
}
