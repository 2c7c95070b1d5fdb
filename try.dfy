/** Bow's fallible result `Try<A>` (Sources/Bow/Data/Try.swift): `Success(value)`
    or `Failure(error)`. Swift's open `Error` becomes the closed `Error` datatype
    (the three `TryError` cases plus any error raised by caller code), and a
    Swift closure that may throw becomes a function returning an `Outcome`. */
module TryData {
  import opened Base
  import MaybeData

  /** `TryError`'s three cases, and `UserError` for an error thrown by caller code. */
  datatype Error =
    | IllegalState
    | PredicateError(message: string)
    | UnsupportedOperation(message: string)
    | UserError(id: nat)

  datatype Try<A> = Success(value: A) | Failure(error: Error)

  /** What a call of a throwing Swift closure does: return a value or throw an error. */
  datatype Outcome<B> = Returns(value: B) | Throws(thrown: Error)

  function Pure<A>(a: A): (r: Try<A>)
    ensures r.Success? && r.value == a
  {
    Success(a)
  }

  function Raise<A>(e: Error): (r: Try<A>)
    ensures !r.Success?
    ensures r.error == e
  {
    Failure(e)
  }

  /** Runs a computation that may throw, capturing a thrown error as a `Failure`. */
  function Invoke<A>(f: () -> Outcome<A>): (r: Try<A>)
    ensures f().Returns? ==> r == Success(f().value)
    ensures f().Throws? ==> r == Failure(f().thrown)
  {
    match f()
    case Returns(v) => Success(v)
    case Throws(e) => Failure(e)
  }

  /** `Invoke` loses nothing: two computations are captured alike exactly when they behave alike. */
  lemma InvokeInjective<A>(f: () -> Outcome<A>, g: () -> Outcome<A>)
    ensures Invoke(f) == Invoke(g) <==> f() == g()
  {
  }

  // ---------------------------------------------------------------------------
  // Elimination

  /** The elimination form; an error thrown by the success branch `fa` is
      routed to the failure branch `fe`. */
  function Fold<A, B>(t: Try<A>, fe: Error -> B, fa: A -> Outcome<B>): (r: B)
    ensures t.Failure? ==> r == fe(t.error)
    ensures t.Success? && fa(t.value).Returns? ==> r == fa(t.value).value
    ensures t.Success? && fa(t.value).Throws? ==> r == fe(fa(t.value).thrown)
  {
    match t
    case Failure(e) => fe(e)
    case Success(v) =>
      match fa(v)
      case Returns(b) => b
      case Throws(e) => fe(e)
  }

  /** Folding with the two constructors rebuilds the value. */
  lemma FoldWithConstructors<A>(t: Try<A>)
    ensures Fold(t, (e: Error) => Failure(e), (a: A) => Returns(Success(a))) == t
  {
  }

  /** A failing success branch makes `Fold` agree with `Invoke` followed by the failure branch. */
  lemma FoldCatchesLikeInvoke<A, B>(v: A, fe: Error -> B, fa: A -> Outcome<B>)
    requires fa(v).Throws?
    ensures Fold(Success(v), fe, fa) == fe(Invoke(() => fa(v)).error)
  {
  }

  function FoldL<A, B>(t: Try<A>, b: B, f: (B, A) -> B): (r: B)
    ensures t.Failure? ==> r == b
    ensures t.Success? ==> r == f(b, t.value)
  {
    Fold(t, (_: Error) => b, (a: A) => Returns(f(b, a)))
  }

  // ---------------------------------------------------------------------------
  // Traverse, with the applicative fixed

  /** `traverse` in the identity applicative: a failure's own error is replaced by `IllegalState`. */
  function TraverseId<A, B>(t: Try<A>, f: A -> Id<B>): (r: Id<Try<B>>)
    ensures t.Failure? ==> r.value == Failure(IllegalState)
    ensures t.Success? ==> r.value == Success(f(t.value).value)
  {
    Fold(t, (_: Error) => IdPure(Raise(IllegalState)),
         (a: A) => Returns(IdMap(f(a), (b: B) => Invoke(() => Returns(b)))))
  }

  /** `traverse` with Maybe as the applicative: a missing effect result makes the whole `None`. */
  function TraverseMaybe<A, B>(t: Try<A>, f: A -> MaybeData.Maybe<B>): (r: MaybeData.Maybe<Try<B>>)
    ensures t.Failure? ==> r == MaybeData.Some(Failure(IllegalState))
    ensures t.Success? ==> (r.Some? <==> f(t.value).Some?)
    ensures t.Success? && r.Some? ==> r.a == Success(f(t.value).a)
  {
    Fold(t, (_: Error) => MaybeData.Pure(Raise(IllegalState)),
         (a: A) => Returns(MaybeData.Map(f(a), (b: B) => Invoke(() => Returns(b)))))
  }

  /** On a success, traversing in `Id` is mapping; on any failure the original error is forgotten. */
  lemma TraverseIdIsMapOrIllegalState<A, B>(t: Try<A>, f: A -> Id<B>, e1: Error, e2: Error)
    ensures t.Success? ==> TraverseId(t, f).value == Map(t, (a: A) => f(a).value)
    ensures TraverseId(Failure(e1), f) == TraverseId(Failure(e2), f)
  {
  }

  // ---------------------------------------------------------------------------
  // Functor, Applicative, Monad

  function Map<A, B>(t: Try<A>, f: A -> B): (r: Try<B>)
    ensures t.Failure? ==> r == Failure(t.error)
    ensures t.Success? ==> r == Success(f(t.value))
  {
    Fold(t, (e: Error) => Raise(e), (a: A) => Returns(Pure(f(a))))
  }

  lemma MapIdentity<A>(t: Try<A>)
    ensures Map(t, (a: A) => a) == t
  {
  }

  lemma MapComposition<A, B, C>(t: Try<A>, f: A -> B, g: B -> C)
    ensures Map(Map(t, f), g) == Map(t, (a: A) => g(f(a)))
  {
  }

  function FlatMap<A, B>(t: Try<A>, f: A -> Try<B>): (r: Try<B>)
    ensures t.Failure? ==> r == Failure(t.error)
    ensures t.Success? ==> r == f(t.value)
  {
    Fold(t, (e: Error) => Raise(e), (a: A) => Returns(f(a)))
  }

  lemma MonadLeftIdentity<A, B>(a: A, f: A -> Try<B>)
    ensures FlatMap(Pure(a), f) == f(a)
  {
  }

  lemma MonadRightIdentity<A>(t: Try<A>)
    ensures FlatMap(t, (a: A) => Pure(a)) == t
  {
  }

  lemma MonadAssociativity<A, B, C>(t: Try<A>, f: A -> Try<B>, g: B -> Try<C>)
    ensures FlatMap(FlatMap(t, f), g) == FlatMap(t, (a: A) => FlatMap(f(a), g))
  {
  }

  /** `map` is `flatMap` followed by `pure`. */
  lemma MapIsFlatMapPure<A, B>(t: Try<A>, f: A -> B)
    ensures Map(t, f) == FlatMap(t, (a: A) => Pure(f(a)))
  {
  }

  /** `ap` applies the function in `ff` to the value in `t`; the function's error wins over the value's. */
  function Ap<A, B>(t: Try<A>, ff: Try<A -> B>): (r: Try<B>)
    ensures ff.Failure? ==> r == Failure(ff.error)
    ensures ff.Success? && t.Failure? ==> r == Failure(t.error)
    ensures ff.Success? && t.Success? ==> r == Success(ff.value(t.value))
  {
    FlatMap(ff, (g: A -> B) => Map(t, g))
  }

  /** tailRecM bounded by `fuel` calls of `f`: a failure of `f` stops the
      recursion with that error, `Right(b)` stops it with `Success(b)`, and
      `Left` continues from the new seed. */
  function TailRecM<A, B>(a: A, f: A -> Try<Either<A, B>>, fuel: nat): (r: Fuelled<Try<B>>)
    decreases fuel
    ensures fuel == 0 ==> r.OutOfFuel?
    ensures fuel > 0 && f(a).Failure? ==> r == Done(Failure(f(a).error))
    ensures fuel > 0 && f(a).Success? && f(a).value.Right? ==> r == Done(Success(f(a).value.right))
    ensures fuel > 0 && f(a).Success? && f(a).value.Left? ==> r == TailRecM(f(a).value.left, f, fuel - 1)
  {
    if fuel == 0 then OutOfFuel
    else
      Fold(f(a), (e: Error) => Done(Raise(e)),
           (e: Either<A, B>) => Returns(FoldEither(e, (l: A) => TailRecM(l, f, fuel - 1), (b: B) => Done(Pure(b)))))
  }

  /** Once the recursion has finished, more fuel does not change its result. */
  lemma {:induction false} TailRecMFuelMonotone<A, B>(a: A, f: A -> Try<Either<A, B>>, fuel: nat, more: nat)
    requires fuel <= more
    requires TailRecM(a, f, fuel).Done?
    ensures TailRecM(a, f, more) == TailRecM(a, f, fuel)
  {
    if f(a).Success? && f(a).value.Left? {
      TailRecMFuelMonotone(f(a).value.left, f, fuel - 1, more - 1);
    }
  }

  /** Every error the recursion finishes with is one that `f` produced for some seed. */
  lemma {:induction false} TailRecMErrorComesFromStep<A, B>(a: A, f: A -> Try<Either<A, B>>, fuel: nat)
    requires TailRecM(a, f, fuel).Done? && TailRecM(a, f, fuel).result.Failure?
    ensures exists s: A :: f(s) == Failure(TailRecM(a, f, fuel).result.error)
  {
    if f(a).Success? && f(a).value.Left? {
      TailRecMErrorComesFromStep(f(a).value.left, f, fuel - 1);
    }
  }

  // ---------------------------------------------------------------------------
  // Filtering, projections and recovery

  /** `filter` keeps a success that satisfies `p` and turns one that does not
      into a predicate error naming the rejected value (`show` stands for
      Swift's string interpolation of it). */
  function Filter<A>(t: Try<A>, p: A -> bool, show: A -> string): (r: Try<A>)
    ensures t.Failure? ==> r == t
    ensures t.Success? && p(t.value) ==> r == t
    ensures t.Success? && !p(t.value) ==>
      r == Failure(PredicateError("Predicate does not hold for " + show(t.value)))
  {
    Fold(t, (e: Error) => Raise(e),
         (a: A) => Returns(if p(a) then Pure(a) else Raise(PredicateError("Predicate does not hold for " + show(a)))))
  }

  /** Swaps polarity: a failure's error becomes the success value; a success is an unsupported operation. */
  function Failed<A>(t: Try<A>): (r: Try<Error>)
    ensures t.Failure? ==> r == Success(t.error)
    ensures t.Success? ==> r == Failure(UnsupportedOperation("Success.failed"))
  {
    Fold(t, (e: Error) => Success(e), (_: A) => Returns(Failure(UnsupportedOperation("Success.failed"))))
  }

  /** On a failure, `failed` is undone by raising the projected error again. */
  lemma FailedRoundTrip<A>(t: Try<A>)
    ensures t.Failure? ==> FlatMap(Failed(t), (e: Error) => Raise<A>(e)) == t
    ensures t.Success? ==> FlatMap(Failed(t), (e: Error) => Raise<A>(e)) == Failure(UnsupportedOperation("Success.failed"))
  {
  }

  function GetOrElse<A>(t: Try<A>, default: A): (r: A)
    ensures t.Success? ==> r == t.value
    ensures t.Failure? ==> r == default
  {
    Fold(t, (_: Error) => default, (a: A) => Returns(a))
  }

  function RecoverWith<A>(t: Try<A>, f: Error -> Try<A>): (r: Try<A>)
    ensures t.Success? ==> r == t
    ensures t.Failure? ==> r == f(t.error)
  {
    Fold(t, f, (a: A) => Returns(Success(a)))
  }

  function Recover<A>(t: Try<A>, f: Error -> A): (r: Try<A>)
    ensures t.Success? ==> r == t
    ensures t.Failure? ==> r == Success(f(t.error))
  {
    Fold(t, (e: Error) => Success(f(e)), (a: A) => Returns(Success(a)))
  }

  /** `recover` always yields a success, and is `recoverWith` of a success-producing handler. */
  lemma RecoverIsRecoverWith<A>(t: Try<A>, f: Error -> A)
    ensures Recover(t, f).Success?
    ensures Recover(t, f) == RecoverWith(t, (e: Error) => Success(f(e)))
  {
  }

  /** A failure goes to `failure`, a success to `success` applied to its value. */
  function Transform<A>(t: Try<A>, failure: Error -> Try<A>, success: A -> Try<A>): (r: Try<A>)
    ensures t.Failure? ==> r == failure(t.error)
    ensures t.Success? ==> r == success(t.value)
  {
    Fold(t, failure, (_: A) => Returns(FlatMap(t, success)))
  }

  /** `transform` is `flatMap` on successes and `recoverWith` on failures. */
  lemma TransformSplits<A>(t: Try<A>, failure: Error -> Try<A>, success: A -> Try<A>)
    ensures t.Success? ==> Transform(t, failure, success) == FlatMap(t, success)
    ensures t.Failure? ==> Transform(t, failure, success) == RecoverWith(t, failure)
  {
  }

  // ---------------------------------------------------------------------------
  // TryMonadError

  function RaiseError<A>(e: Error): (r: Try<A>)
    ensures r.Failure? && r.error == e
  {
    Failure(e)
  }

  function HandleErrorWith<A>(t: Try<A>, f: Error -> Try<A>): (r: Try<A>)
    ensures t.Success? ==> r == t
    ensures t.Failure? ==> r == f(t.error)
  {
    RecoverWith(t, f)
  }

  lemma MonadErrorLaws<A>(e: Error, a: A, f: Error -> Try<A>)
    ensures HandleErrorWith(RaiseError(e), f) == f(e)
    ensures HandleErrorWith(Pure(a), f) == Pure(a)
    ensures HandleErrorWith(RaiseError(e), (x: Error) => RaiseError(x)) == RaiseError<A>(e)
  {
  }

  // ---------------------------------------------------------------------------
  // TryEq

  /** Failures are equal when their errors have the same description
      (`describe` stands for Swift's `"\(error)"`), successes when `eqr` relates
      their values, and a failure never equals a success. */
  function Eqv<R>(eqr: (R, R) -> bool, describe: Error -> string, x: Try<R>, y: Try<R>): (r: bool)
    ensures x.Failure? ==> (r <==> y.Failure? && describe(x.error) == describe(y.error))
    ensures x.Success? ==> (r <==> y.Success? && eqr(x.value, y.value))
  {
    Fold(x, (xe: Error) => Fold(y, (ye: Error) => describe(xe) == describe(ye), (_: R) => Returns(false)),
         (xv: R) => Returns(Fold(y, (_: Error) => false, (yv: R) => Returns(eqr(xv, yv)))))
  }

  lemma EqvEquivalence<R(!new)>(eqr: (R, R) -> bool, describe: Error -> string)
    requires Equivalence(eqr)
    ensures Equivalence((x: Try<R>, y: Try<R>) => Eqv(eqr, describe, x, y))
  {
  }
}
