/** Small value types shared by the whole model. */
module Types {

  /** `string | null` and similar optional values. */
  datatype Option<+T> = None | Some(value: T)

  /** The outcome of an operation that may throw. */
  datatype Result<+T, +E> = Success(value: T) | Failure(error: E)
}
