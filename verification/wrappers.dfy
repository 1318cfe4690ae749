/** Failure-carrying and two-branch sum types shared by the whole model. */
module Wrappers {

  /** Rust's `Option`: a value that may be absent. */
  datatype Option<T> = None | Some(value: T)

  /** Rust's `Result`: a success value or an error value. */
  datatype Result<T, E> = Ok(value: T) | Err(error: E)

  /** actix's `EitherBody`: the downstream stage's body on the left,
      a body produced locally by the middleware on the right. */
  datatype Either<L, R> = Left(left: L) | Right(right: R)
}
