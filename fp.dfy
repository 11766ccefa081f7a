/** The pieces of fp-ts's Option and Either that the /hello handler composes with. */
module Fp {

  datatype Option<+T> = None | Some(value: T)

  /** fp-ts Either: Left carries a failure, Right a success. */
  datatype Either<+L, +R> = Left(left: L) | Right(right: R)

  /** E.mapLeft: rewrite a failure, pass a success through. */
  function MapLeft<L, R, L2>(e: Either<L, R>, f: L -> L2): Either<L2, R>
  {
    match e
    case Left(l) => Left(f(l))
    case Right(x) => Right(x)
  }

  /** E.orElse: recover from a failure with f, pass a success through. */
  function OrElse<L, R, L2>(e: Either<L, R>, f: L -> Either<L2, R>): Either<L2, R>
  {
    match e
    case Left(l) => f(l)
    case Right(x) => Right(x)
  }

  /** E.chain (and ichain on the reader middleware): run f on a success, keep the first failure. */
  function Chain<L, R, R2>(e: Either<L, R>, f: R -> Either<L, R2>): Either<L, R2>
  {
    match e
    case Left(l) => Left(l)
    case Right(x) => f(x)
  }
}
