/** Optional values and results shared by the model: `Option` stands for a
    Java reference that may be null (or an empty `Mono`), `Result` for a call
    that either returns a value or throws. */
module Wrappers {

  datatype Option<+T> = None | Some(value: T)

  datatype Result<+R, +E> = Success(value: R) | Failure(error: E)
}
