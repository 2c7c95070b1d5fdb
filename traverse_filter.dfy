/** The default operations of the TraverseFilter typeclass
    (Sources/Bow/Typeclasses/TraverseFilter.swift), each derived from
    `traverseFilter` alone. Without higher-kinded types the container F is
    fixed to Maybe, whose `traverseFilter` is the primitive, and the
    applicative G is fixed to `Id` (and, for `FilterA`, also to Maybe). */
module TraverseFilter {
  import opened Base
  import M = MaybeData

  /** Derived `mapFilter`: `traverseFilter` in `Id` with `f` lifted by `Id.pure`, then extracted. */
  function MapFilter<A, B>(fa: M.Maybe<A>, f: A -> M.Maybe<B>): (r: M.Maybe<B>)
    ensures r == M.MapFilter(fa, f)
  {
    Extract(M.TraverseFilterId(fa, (a: A) => IdPure(f(a))))
  }

  /** Derived `filterA` in `Id`: each element becomes `Some(a)` or `None` as its effect yields true or false. */
  function FilterAId<A>(fa: M.Maybe<A>, f: A -> Id<bool>): (r: Id<M.Maybe<A>>)
    ensures r.value == M.Filter(fa, (a: A) => f(a).value)
  {
    M.TraverseFilterId(fa, (a: A) => IdMap(f(a), (b: bool) => if b then M.Some(a) else M.None))
  }

  /** Derived `filterA` in the Maybe applicative: a missing effect result
      (`None`) makes the whole result `None`; otherwise the element is kept
      exactly when the effect yields true. */
  function FilterAMaybe<A>(fa: M.Maybe<A>, f: A -> M.Maybe<bool>): (r: M.Maybe<M.Maybe<A>>)
    ensures fa.None? ==> r == M.Some(M.None)
    ensures fa.Some? ==> (r.None? <==> f(fa.a).None?)
    ensures fa.Some? && r.Some? ==> r.a == M.Filter(fa, (_: A) => f(fa.a).a)
  {
    M.TraverseFilterMaybe(fa, (a: A) => M.Map(f(a), (b: bool) => if b then M.Some(a) else M.None))
  }

  /** Derived `filter`: `filterA` in `Id` with the predicate lifted by `Id.pure`, then extracted. */
  function Filter<A>(fa: M.Maybe<A>, p: A -> bool): (r: M.Maybe<A>)
    ensures r == M.Filter(fa, p)
  {
    Extract(FilterAId(fa, (a: A) => IdPure(p(a))))
  }

  /** The derived operations agree with Maybe's direct ones, and derived `mapFilter` is `flatMap`. */
  lemma DerivedAgreesWithDirect<A, B>(fa: M.Maybe<A>, f: A -> M.Maybe<B>, p: A -> bool)
    ensures MapFilter(fa, f) == M.FlatMap(fa, f)
    ensures Filter(fa, p) == M.Filter(fa, p)
    ensures FilterAMaybe(fa, (a: A) => M.Pure(p(a))) == M.Some(Filter(fa, p))
  {
  }

  /** An always-true predicate keeps the value; an always-false one discards it. */
  lemma FilterConstant<A>(fa: M.Maybe<A>)
    ensures Filter(fa, (_: A) => true) == fa
    ensures Filter(fa, (_: A) => false) == M.None
  {
  }

  /** `filter` is idempotent, and two filters are one filter on the conjunction. */
  lemma FilterComposes<A>(fa: M.Maybe<A>, p: A -> bool, q: A -> bool)
    ensures Filter(Filter(fa, p), p) == Filter(fa, p)
    ensures Filter(Filter(fa, p), q) == Filter(fa, (a: A) => p(a) && q(a))
  {
  }
}
