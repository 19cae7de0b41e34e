/** Outcomes of operations that can fail. A failed assertion or a thrown
    exception of the source is a Failure carrying a description. */
module Wrappers {
  datatype Option<T> = None | Some(value: T)

  datatype Result<T> = Success(value: T) | Failure(error: string)
}
