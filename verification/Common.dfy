/** Stock failure-carrying types shared by every component. */
module Common {
  datatype Option<+T> = None | Some(value: T)

  datatype Result<+R, +E> = Success(value: R) | Failure(error: E)
}
