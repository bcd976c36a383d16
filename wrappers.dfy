/** Optional values and results with an error, used for the factory's ValueError
    and for looking up a connection in the offender table. */
module Wrappers {

  datatype Option<T> = None | Some(value: T)

  datatype Result<T, E> = Success(value: T) | Failure(error: E)
}
