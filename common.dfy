/** Option and Result, the shapes used for Python's `None` returns and raised exceptions. */
module Common {
  datatype Option<T> = None | Some(value: T)

  /** `Failure` stands for an exception that leaves the Python function; the
      string names its class. */
  datatype Result<T> = Success(value: T) | Failure(error: string)
}
