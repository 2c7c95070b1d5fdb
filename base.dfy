/** Shared vocabulary for the Bow model: the two-way sum used by `tailRecM` and
    by prisms, the identity applicative, Swift's native optional `A?`, the unit
    value passed to Maybe's error handler, results of fuel-bounded recursion,
    and the algebraic properties that Eq and Semigroup instances promise. */
module Base {

  /** The `()`-like value Maybe's MonadError passes to its handler. */
  datatype Unit = Unit

  /** `Either<A, B>`: a value of one of two types, `Left` or `Right`. */
  datatype Either<L, R> = Left(left: L) | Right(right: R)

  /** Either's elimination form. */
  function FoldEither<L, R, C>(e: Either<L, R>, ifLeft: L -> C, ifRight: R -> C): (r: C)
    ensures e.Left? ==> r == ifLeft(e.left)
    ensures e.Right? ==> r == ifRight(e.right)
  {
    match e
    case Left(l) => ifLeft(l)
    case Right(x) => ifRight(x)
  }

  /** The identity applicative `Id`: an effect that does nothing. */
  datatype Id<A> = Id(value: A)

  function IdPure<A>(a: A): Id<A> {
    Id(a)
  }

  function IdMap<A, B>(fa: Id<A>, f: A -> B): Id<B> {
    Id(f(fa.value))
  }

  function Extract<A>(fa: Id<A>): A {
    fa.value
  }

  /** Swift's native optional `A?`. */
  datatype Optional<A> = Nil | Wrapped(unwrapped: A)

  /** The result of a recursion given a bounded number of steps. */
  datatype Fuelled<T> = Done(result: T) | OutOfFuel

  ghost predicate Reflexive<T(!new)>(eq: (T, T) -> bool) {
    forall x :: eq(x, x)
  }

  ghost predicate Symmetric<T(!new)>(eq: (T, T) -> bool) {
    forall x, y :: eq(x, y) ==> eq(y, x)
  }

  ghost predicate Transitive<T(!new)>(eq: (T, T) -> bool) {
    forall x, y, z :: eq(x, y) && eq(y, z) ==> eq(x, z)
  }

  /** What an `Eq` instance's `eqv` must be. */
  ghost predicate Equivalence<T(!new)>(eq: (T, T) -> bool) {
    Reflexive(eq) && Symmetric(eq) && Transitive(eq)
  }

  /** What a `Semigroup` instance's `combine` must be. */
  ghost predicate Associative<T(!new)>(op: (T, T) -> T) {
    forall x, y, z :: op(op(x, y), z) == op(x, op(y, z))
  }
}
