/** Optional values and results carrying an error message (a thrown JavaScript `Error`). */
module Wrappers {
  datatype Option<+T> = None | Some(value: T)

  datatype Result<+T> = Success(value: T) | Failure(error: string)
}
