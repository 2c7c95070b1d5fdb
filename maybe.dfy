/** Bow's optional value `Maybe<A>` (Sources/Bow/Data/Maybe.swift): `Some(a)` or
    `None`, with `Fold` as the single elimination form and every other operation
    built from it, together with the Semigroup/Monoid, Eq and MonadError
    instances. Closing the type as a datatype removes the source's unreachable
    `fatalError` branch. */
module MaybeData {
  import opened Base

  datatype Maybe<A> = Some(a: A) | None

  function Pure<A>(a: A): (r: Maybe<A>)
    ensures r.Some? && r.a == a
  {
    Some(a)
  }

  /** The `empty` of MaybeMonadFilter and of MaybeMonoid. */
  function Empty<A>(): (r: Maybe<A>)
    ensures IsEmpty(r)
  {
    None
  }

  // ---------------------------------------------------------------------------
  // Elimination

  function Fold<A, B>(x: Maybe<A>, ifEmpty: () -> B, f: A -> B): (r: B)
    ensures x.Some? ==> r == f(x.a)
    ensures x.None? ==> r == ifEmpty()
  {
    match x
    case Some(a) => f(a)
    case None => ifEmpty()
  }

  /** Folding with the two constructors rebuilds the value: `Fold` loses nothing. */
  lemma FoldWithConstructors<A>(x: Maybe<A>)
    ensures Fold(x, () => None, (a: A) => Some(a)) == x
  {
  }

  function IsEmpty<A>(x: Maybe<A>): (r: bool)
    ensures r <==> x.None?
  {
    Fold(x, () => true, (_: A) => false)
  }

  function IsDefined<A>(x: Maybe<A>): (r: bool)
    ensures r <==> x.Some?
  {
    !IsEmpty(x)
  }

  // ---------------------------------------------------------------------------
  // Functor, Applicative, Monad

  function Map<A, B>(x: Maybe<A>, f: A -> B): (r: Maybe<B>)
    ensures r.Some? <==> x.Some?
    ensures r.Some? ==> r.a == f(x.a)
  {
    Fold(x, () => None, (a: A) => Some(f(a)))
  }

  lemma MapIdentity<A>(x: Maybe<A>)
    ensures Map(x, (a: A) => a) == x
  {
  }

  lemma MapComposition<A, B, C>(x: Maybe<A>, f: A -> B, g: B -> C)
    ensures Map(Map(x, f), g) == Map(x, (a: A) => g(f(a)))
  {
  }

  /** `ap` applies the function in `ff` to the value in `x`; either missing gives `None`. */
  function Ap<A, B>(x: Maybe<A>, ff: Maybe<A -> B>): (r: Maybe<B>)
    ensures r.Some? <==> x.Some? && ff.Some?
    ensures r.Some? ==> r.a == ff.a(x.a)
  {
    FlatMap(ff, (g: A -> B) => Map(x, g))
  }

  /** Applicative identity and homomorphism. */
  lemma ApLaws<A, B>(x: Maybe<A>, g: A -> B, a: A)
    ensures Ap(x, Pure((v: A) => v)) == x
    ensures Ap(Pure(a), Pure(g)) == Pure(g(a))
    ensures Ap(x, Pure(g)) == Map(x, g)
  {
  }

  function FlatMap<A, B>(x: Maybe<A>, f: A -> Maybe<B>): (r: Maybe<B>)
    ensures x.None? ==> r.None?
    ensures x.Some? ==> r == f(x.a)
  {
    Fold(x, () => None, f)
  }

  lemma MonadLeftIdentity<A, B>(a: A, f: A -> Maybe<B>)
    ensures FlatMap(Pure(a), f) == f(a)
  {
  }

  lemma MonadRightIdentity<A>(x: Maybe<A>)
    ensures FlatMap(x, (a: A) => Pure(a)) == x
  {
  }

  lemma MonadAssociativity<A, B, C>(x: Maybe<A>, f: A -> Maybe<B>, g: B -> Maybe<C>)
    ensures FlatMap(FlatMap(x, f), g) == FlatMap(x, (a: A) => FlatMap(f(a), g))
  {
  }

  /** `Empty` is a zero for `FlatMap` (MaybeMonadFilter). */
  lemma EmptyAbsorbs<A, B>(f: A -> Maybe<B>)
    ensures FlatMap(Empty<A>(), f) == Empty<B>()
  {
  }

  function FoldL<A, B>(x: Maybe<A>, b: B, f: (B, A) -> B): (r: B)
    ensures x.None? ==> r == b
    ensures x.Some? ==> r == f(b, x.a)
  {
    Fold(x, () => b, (a: A) => f(b, a))
  }

  /** Stack-unsafe recursion of the source, bounded by `fuel` calls of `f`:
      stops with `None` as soon as `f` yields `None`, with `Some(b)` on
      `Right(b)`, and continues from the new seed on `Left`. */
  function TailRecM<A, B>(a: A, f: A -> Maybe<Either<A, B>>, fuel: nat): (r: Fuelled<Maybe<B>>)
    decreases fuel
    ensures fuel == 0 ==> r.OutOfFuel?
    ensures fuel > 0 && f(a).None? ==> r == Done(None)
    ensures fuel > 0 && f(a).Some? && f(a).a.Right? ==> r == Done(Some(f(a).a.right))
    ensures fuel > 0 && f(a).Some? && f(a).a.Left? ==> r == TailRecM(f(a).a.left, f, fuel - 1)
  {
    if fuel == 0 then OutOfFuel
    else
      Fold(f(a), () => Done(None),
           (e: Either<A, B>) => FoldEither(e, (l: A) => TailRecM(l, f, fuel - 1), (b: B) => Done(Some(b))))
  }

  /** Once the recursion has finished, more fuel does not change its result. */
  lemma {:induction false} TailRecMFuelMonotone<A, B>(a: A, f: A -> Maybe<Either<A, B>>, fuel: nat, more: nat)
    requires fuel <= more
    requires TailRecM(a, f, fuel).Done?
    ensures TailRecM(a, f, more) == TailRecM(a, f, fuel)
  {
    if f(a).Some? && f(a).a.Left? {
      TailRecMFuelMonotone(f(a).a.left, f, fuel - 1, more - 1);
    }
  }

  /** `f` moves every `Left` seed strictly down a rank. */
  ghost predicate RankDecreasing<A(!new), B>(f: A -> Maybe<Either<A, B>>, rank: A -> nat) {
    forall x :: f(x).Some? && f(x).a.Left? ==> rank(f(x).a.left) < rank(x)
  }

  /** When `f` is well founded, fuel beyond the seed's rank always suffices. */
  lemma {:induction false} TailRecMTerminates<A(!new), B>(a: A, f: A -> Maybe<Either<A, B>>, rank: A -> nat, fuel: nat)
    requires RankDecreasing(f, rank)
    requires fuel > rank(a)
    ensures TailRecM(a, f, fuel).Done?
  {
    if f(a).Some? && f(a).a.Left? {
      TailRecMTerminates(f(a).a.left, f, rank, fuel - 1);
    }
  }

  // ---------------------------------------------------------------------------
  // Traverse and FunctorFilter, with the applicative fixed

  /** `traverse` in the identity applicative. */
  function TraverseId<A, B>(x: Maybe<A>, f: A -> Id<B>): (r: Id<Maybe<B>>)
    ensures r.value == Map(x, (a: A) => f(a).value)
  {
    Fold(x, () => IdPure(None), (a: A) => IdMap(f(a), (b: B) => Some(b)))
  }

  /** `traverseFilter` in the identity applicative. */
  function TraverseFilterId<A, B>(x: Maybe<A>, f: A -> Id<Maybe<B>>): (r: Id<Maybe<B>>)
    ensures x.None? ==> r.value.None?
    ensures x.Some? ==> r == f(x.a)
  {
    Fold(x, () => IdPure(None), f)
  }

  /** `traverseFilter` with Maybe itself as the applicative: an outer `None`
      is a failed effect, an inner `None` a discarded element. */
  function TraverseFilterMaybe<A, B>(x: Maybe<A>, f: A -> Maybe<Maybe<B>>): (r: Maybe<Maybe<B>>)
    ensures x.None? ==> r == Some(None)
    ensures x.Some? ==> r == f(x.a)
  {
    Fold(x, () => Pure(None), f)
  }

  /** `mapFilter` keeps an element exactly when its mapping is present, and then holds that mapping. */
  function MapFilter<A, B>(x: Maybe<A>, f: A -> Maybe<B>): (r: Maybe<B>)
    ensures r.Some? <==> x.Some? && f(x.a).Some?
    ensures r.Some? ==> r.a == f(x.a).a
  {
    Fold(x, () => None, f)
  }

  /** On Maybe, `mapFilter` and `flatMap` are the same function. */
  lemma MapFilterIsFlatMap<A, B>(x: Maybe<A>, f: A -> Maybe<B>)
    ensures MapFilter(x, f) == FlatMap(x, f)
  {
  }

  /** FunctorFilter law: mapFilter with `Some` after `f` is `map`. */
  lemma MapFilterSomeIsMap<A, B>(x: Maybe<A>, f: A -> B)
    ensures MapFilter(x, (a: A) => Some(f(a))) == Map(x, f)
  {
  }

  // ---------------------------------------------------------------------------
  // Queries and filters

  /** `filter` keeps `Some(a)` exactly when `p(a)`. */
  function Filter<A>(x: Maybe<A>, p: A -> bool): (r: Maybe<A>)
    ensures r.Some? <==> x.Some? && p(x.a)
    ensures r.Some? ==> r == x
  {
    Fold(x, () => None, (a: A) => if p(a) then Some(a) else None)
  }

  function FilterNot<A>(x: Maybe<A>, p: A -> bool): (r: Maybe<A>)
    ensures r.Some? <==> x.Some? && !p(x.a)
    ensures r.Some? ==> r == x
  {
    Filter(x, (a: A) => !p(a))
  }

  /** A present value survives exactly one of `Filter` and `FilterNot`. */
  lemma FilterPartition<A>(x: Maybe<A>, p: A -> bool)
    requires x.Some?
    ensures Filter(x, p).Some? != FilterNot(x, p).Some?
  {
  }

  function Exists<A>(x: Maybe<A>, p: A -> bool): (r: bool)
    ensures r <==> x.Some? && p(x.a)
  {
    Fold(x, () => false, p)
  }

  /** `forall` as written in the source: it calls `exists`, so it is false on `None`. */
  function ForAll<A>(x: Maybe<A>, p: A -> bool): (r: bool)
    ensures r <==> x.Some? && p(x.a)
  {
    Exists(x, p)
  }

  /** `forall` with its evident meaning: vacuously true on `None`. */
  function ForAllIntended<A>(x: Maybe<A>, p: A -> bool): (r: bool)
    ensures r <==> x.None? || p(x.a)
  {
    Fold(x, () => true, p)
  }

  /** The intended `forall` is the dual of `exists`. */
  lemma ForAllIntendedIsDualOfExists<A>(x: Maybe<A>, p: A -> bool)
    ensures ForAllIntended(x, p) == !Exists(x, (a: A) => !p(a))
  {
  }

  /** The source's `forall` rejects `None` even for a predicate that always holds. */
  lemma ForAllAsWrittenRejectsNone<A>()
    ensures !ForAll(None, (_: A) => true)
    ensures ForAllIntended(None, (_: A) => true)
  {
  }

  function GetOrElseWith<A>(x: Maybe<A>, default: () -> A): (r: A)
    ensures x.Some? ==> r == x.a
    ensures x.None? ==> r == default()
  {
    Fold(x, default, (a: A) => a)
  }

  function GetOrElse<A>(x: Maybe<A>, default: A): (r: A)
    ensures x.Some? ==> r == x.a
    ensures x.None? ==> r == default
  {
    GetOrElseWith(x, () => default)
  }

  function OrElseWith<A>(x: Maybe<A>, alternative: () -> Maybe<A>): (r: Maybe<A>)
    ensures x.Some? ==> r == x
    ensures x.None? ==> r == alternative()
  {
    Fold(x, alternative, (a: A) => Some(a))
  }

  function OrElse<A>(x: Maybe<A>, alternative: Maybe<A>): (r: Maybe<A>)
    ensures x.Some? ==> r == x
    ensures x.None? ==> r == alternative
  {
    OrElseWith(x, () => alternative)
  }

  /** `getOrElse` after `orElse` with a present alternative never needs its default. */
  lemma OrElseGetOrElse<A>(x: Maybe<A>, y: A, d: A)
    ensures GetOrElse(OrElse(x, Some(y)), d) == GetOrElse(x, y)
  {
  }

  // ---------------------------------------------------------------------------
  // Conversions to and from Swift's optional

  function FromOption<A>(o: Optional<A>): (r: Maybe<A>)
    ensures o.Nil? ==> r.None?
    ensures o.Wrapped? ==> r == Some(o.unwrapped)
  {
    if o.Wrapped? then Some(o.unwrapped) else None
  }

  function ToOption<A>(x: Maybe<A>): (r: Optional<A>)
    ensures x.None? ==> r.Nil?
    ensures x.Some? ==> r == Wrapped(x.a)
  {
    Fold(x, () => Nil, (a: A) => Wrapped(a))
  }

  lemma OptionRoundTrip<A>(o: Optional<A>, x: Maybe<A>)
    ensures ToOption(FromOption(o)) == o
    ensures FromOption(ToOption(x)) == x
  {
  }

  // ---------------------------------------------------------------------------
  // MaybeSemigroup and MaybeMonoid

  /** Two `Some`s combine their payloads with the inner semigroup `sg`; `None` is neutral. */
  function Combine<R>(sg: (R, R) -> R, x: Maybe<R>, y: Maybe<R>): (r: Maybe<R>)
    ensures x.None? ==> r == y
    ensures y.None? ==> r == x
    ensures x.Some? && y.Some? ==> r == Some(sg(x.a, y.a))
  {
    Fold(x, () => y, (xa: R) => Fold(y, () => x, (ya: R) => Some(sg(xa, ya))))
  }

  lemma CombineIdentity<R>(sg: (R, R) -> R, x: Maybe<R>)
    ensures Combine(sg, Empty(), x) == x
    ensures Combine(sg, x, Empty()) == x
  {
  }

  lemma CombineAssociative<R(!new)>(sg: (R, R) -> R)
    requires Associative(sg)
    ensures Associative((x: Maybe<R>, y: Maybe<R>) => Combine(sg, x, y))
  {
  }

  // ---------------------------------------------------------------------------
  // MaybeMonadError: `None` is the (unit) error

  function RaiseError<A>(e: Unit): (r: Maybe<A>)
    ensures r.None?
  {
    None
  }

  function HandleErrorWith<A>(x: Maybe<A>, f: Unit -> Maybe<A>): (r: Maybe<A>)
    ensures x.Some? ==> r == x
    ensures x.None? ==> r == f(Unit)
  {
    OrElse(x, f(Unit))
  }

  lemma MonadErrorLaws<A>(a: A, f: Unit -> Maybe<A>)
    ensures HandleErrorWith(RaiseError(Unit), f) == f(Unit)
    ensures HandleErrorWith(Pure(a), f) == Pure(a)
  {
  }

  // ---------------------------------------------------------------------------
  // MaybeEq

  /** Structural equality from an element equality `eqr`. */
  function Eqv<R>(eqr: (R, R) -> bool, x: Maybe<R>, y: Maybe<R>): (r: bool)
    ensures x.None? ==> (r <==> y.None?)
    ensures x.Some? ==> (r <==> y.Some? && eqr(x.a, y.a))
  {
    Fold(x, () => Fold(y, () => true, (_: R) => false),
         (xa: R) => Fold(y, () => false, (ya: R) => eqr(xa, ya)))
  }

  lemma EqvEquivalence<R(!new)>(eqr: (R, R) -> bool)
    requires Equivalence(eqr)
    ensures Equivalence((x: Maybe<R>, y: Maybe<R>) => Eqv(eqr, x, y))
  {
  }
}
