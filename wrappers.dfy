/** Optional values and results with an error, used for the store's
    "no such row", the services' thrown exceptions and the guard's oracles. */
module Wrappers {

  datatype Option<+T> = None | Some(value: T)

  datatype Result<+R, +E> = Success(value: R) | Failure(error: E)
}
