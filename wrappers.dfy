/** Failure-carrying wrapper types shared by the engine, the generator and the solver. */
module Wrappers {

  datatype Option<T> = None | Some(value: T)

  datatype Result<T, E> = Success(value: T) | Failure(error: E)
}
