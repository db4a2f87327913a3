/** Option and Result values: the model's stand-in for Go's nil and for a
    construction that panics. */
module Results {

  datatype Option<+T> = None | Some(value: T)

  datatype Result<+R, +E> = Success(value: R) | Failure(error: E)
}
