/** The algebraic laws a prism must obey (Tests/BowTests/Optics/Laws/PrismLaws.swift)
    and the "first `Some` wins" monoid used there. A prism is kept abstract: a
    record of its five operations with no bodies assumed, so each law is a
    predicate over any such record. Each `...At` predicate is the boolean one
    random sample of the source checks; the matching law quantifies it over
    every sample, which is what the source's randomized `forAll` approximates. */
module PrismLaws {
  import opened Base
  import M = MaybeData

  /** A reversible partial accessor from a whole `A` to an optional focus `B`. */
  datatype Prism<!A, !B> = Prism(
    getOrModify: A -> Either<A, B>,
    reverseGet: B -> A,
    getMaybe: A -> M.Maybe<B>,
    modifyFocus: (A, B -> B) -> A,
    setFocus: (A, B) -> A)

  // ---------------------------------------------------------------------------
  // One sample of each law

  /** Extracting, then rebuilding (or keeping the whole when extraction fails) gives back `a`. */
  function PartialRoundTripOneWayAt<A, B>(p: Prism<A, B>, eqA: (A, A) -> bool, a: A): (r: bool)
    ensures p.getOrModify(a).Left? ==> (r <==> eqA(p.getOrModify(a).left, a))
    ensures p.getOrModify(a).Right? ==> (r <==> eqA(p.reverseGet(p.getOrModify(a).right), a))
  {
    eqA(FoldEither(p.getOrModify(a), (x: A) => x, p.reverseGet), a)
  }

  /** Rebuilding from `b`, then extracting, gives `Some(b)` under Maybe's equality. */
  function RoundTripOtherWayAt<A, B>(p: Prism<A, B>, eqB: (B, B) -> bool, b: B): (r: bool)
    ensures r <==> p.getMaybe(p.reverseGet(b)).Some? && eqB(p.getMaybe(p.reverseGet(b)).a, b)
  {
    M.Eqv(eqB, p.getMaybe(p.reverseGet(b)), M.Some(b))
  }

  /** Modifying the focus with the identity leaves the whole unchanged; under
      a reflexive `eqA`, a `modify` that returns `a` itself always passes. */
  function ModifyIdAt<A(!new), B>(p: Prism<A, B>, eqA: (A, A) -> bool, a: A): (r: bool)
    ensures Reflexive(eqA) && p.modifyFocus(a, Identity) == a ==> r
  {
    eqA(p.modifyFocus(a, Identity), a)
  }

  /** Modifying with `f` and then with `g` is modifying once with `g` after `f`. */
  function ComposeModifyAt<A(!new), B>(p: Prism<A, B>, eqA: (A, A) -> bool, a: A, f: B -> B, g: B -> B): (r: bool)
    ensures Reflexive(eqA) && p.modifyFocus(p.modifyFocus(a, f), g) == p.modifyFocus(a, Compose(f, g)) ==> r
  {
    eqA(p.modifyFocus(p.modifyFocus(a, f), g), p.modifyFocus(a, Compose(f, g)))
  }

  /** Setting the focus to `b` is modifying it with the constant function of `b`. */
  function ConsistentSetModifyAt<A(!new), B>(p: Prism<A, B>, eqA: (A, A) -> bool, a: A, b: B): (r: bool)
    ensures Reflexive(eqA) && p.setFocus(a, b) == p.modifyFocus(a, Const(b)) ==> r
  {
    eqA(p.setFocus(a, b), p.modifyFocus(a, Const(b)))
  }

  function Identity<B>(b: B): B {
    b
  }

  /** `g <<< f`: apply `f`, then `g`. */
  function Compose<B>(f: B -> B, g: B -> B): B -> B {
    (b: B) => g(f(b))
  }

  /** `constF(b)`: ignore the argument and return `b`. */
  function Const<B>(b: B): B -> B {
    (_: B) => b
  }

  // ---------------------------------------------------------------------------
  // The laws, over every sample

  ghost predicate PartialRoundTripOneWay<A(!new), B>(p: Prism<A, B>, eqA: (A, A) -> bool) {
    forall a :: PartialRoundTripOneWayAt(p, eqA, a)
  }

  ghost predicate RoundTripOtherWay<A, B(!new)>(p: Prism<A, B>, eqB: (B, B) -> bool) {
    forall b :: RoundTripOtherWayAt(p, eqB, b)
  }

  ghost predicate ModifyId<A(!new), B>(p: Prism<A, B>, eqA: (A, A) -> bool) {
    forall a :: ModifyIdAt(p, eqA, a)
  }

  ghost predicate ComposeModify<A(!new), B(!new)>(p: Prism<A, B>, eqA: (A, A) -> bool) {
    forall a, f, g :: ComposeModifyAt(p, eqA, a, f, g)
  }

  ghost predicate ConsistentSetModify<A(!new), B(!new)>(p: Prism<A, B>, eqA: (A, A) -> bool) {
    forall a, b :: ConsistentSetModifyAt(p, eqA, a, b)
  }

  /** The battery `check` runs (its two `modifyF` laws are not part of this model). */
  ghost predicate Lawful<A(!new), B(!new)>(p: Prism<A, B>, eqA: (A, A) -> bool, eqB: (B, B) -> bool) {
    && PartialRoundTripOneWay(p, eqA)
    && RoundTripOtherWay(p, eqB)
    && ModifyId(p, eqA)
    && ComposeModify(p, eqA)
    && ConsistentSetModify(p, eqA)
  }

  /** The other-way round trip makes `reverseGet` injective up to `eqB`:
      two foci that rebuild the same whole are equal. */
  lemma ReverseGetInjective<A, B(!new)>(p: Prism<A, B>, eqB: (B, B) -> bool, b1: B, b2: B)
    requires Equivalence(eqB)
    requires RoundTripOtherWay(p, eqB)
    requires p.reverseGet(b1) == p.reverseGet(b2)
    ensures eqB(b1, b2)
  {
    assert RoundTripOtherWayAt(p, eqB, b1);
    assert RoundTripOtherWayAt(p, eqB, b2);
  }

  /** What a lawful prism promises about one whole `a` and one focus `b`:
      extracting from `reverseGet(b)` never fails, and whatever `getOrModify`
      returns for `a` leads back to `a`. */
  lemma LawfulRoundTrips<A(!new), B(!new)>(p: Prism<A, B>, eqA: (A, A) -> bool, eqB: (B, B) -> bool, a: A, b: B)
    requires Lawful(p, eqA, eqB)
    ensures p.getMaybe(p.reverseGet(b)).Some?
    ensures eqB(p.getMaybe(p.reverseGet(b)).a, b)
    ensures p.getOrModify(a).Left? ==> eqA(p.getOrModify(a).left, a)
    ensures p.getOrModify(a).Right? ==> eqA(p.reverseGet(p.getOrModify(a).right), a)
  {
    assert RoundTripOtherWayAt(p, eqB, b);
    assert PartialRoundTripOneWayAt(p, eqA, a);
  }

  // ---------------------------------------------------------------------------
  // A lawful prism: the even integers inside the integers

  type Even = n: int | n % 2 == 0

  function EvenPrism(): Prism<int, Even> {
    Prism(
      (a: int) => if a % 2 == 0 then Right(a as Even) else Left(a),
      (b: Even) => b as int,
      (a: int) => if a % 2 == 0 then M.Some(a as Even) else M.None,
      (a: int, f: Even -> Even) => if a % 2 == 0 then f(a as Even) as int else a,
      (a: int, b: Even) => if a % 2 == 0 then b as int else a)
  }

  function IntEq(x: int, y: int): bool {
    x == y
  }

  function EvenEq(x: Even, y: Even): bool {
    x == y
  }

  /** The laws are satisfiable: the even prism obeys all of them under plain
      equality, and it extracts 4 but not 3, handing 3 back unchanged. */
  lemma EvenPrismLawful()
    ensures Lawful(EvenPrism(), IntEq, EvenEq)
    ensures EvenPrism().getMaybe(4) == M.Some(4) && EvenPrism().getMaybe(3) == M.None
    ensures EvenPrism().getOrModify(3) == Left(3)
  {
    var p := EvenPrism();
    forall a: int ensures PartialRoundTripOneWayAt(p, IntEq, a) {
    }
    forall b: Even ensures RoundTripOtherWayAt(p, EvenEq, b) {
    }
    forall a: int ensures ModifyIdAt(p, IntEq, a) {
      if a % 2 == 0 {
        assert Identity(a as Even) == a as Even;
      }
    }
    forall a: int, f: Even -> Even, g: Even -> Even ensures ComposeModifyAt(p, IntEq, a, f, g) {
    }
    forall a: int, b: Even ensures ConsistentSetModifyAt(p, IntEq, a, b) {
    }
  }

  /** The same even numbers with plain `int` as the focus type: modifying with
      `+1` leaves the even numbers, so the next modification no longer applies. */
  function IntEvenPrism(): Prism<int, int> {
    Prism(
      (a: int) => if a % 2 == 0 then Right(a) else Left(a),
      (b: int) => b,
      (a: int) => if a % 2 == 0 then M.Some(a) else M.None,
      (a: int, f: int -> int) => if a % 2 == 0 then f(a) else a,
      (a: int, b: int) => if a % 2 == 0 then b else a)
  }

  /** With an `int` focus, compose-modify fails at 4 for `+1` then `*2`:
      modifying twice gives 5, modifying once with the composition gives 10. */
  lemma IntEvenPrismBreaksComposeModify()
    ensures IntEvenPrism().modifyFocus(IntEvenPrism().modifyFocus(4, x => x + 1), x => x * 2) == 5
    ensures IntEvenPrism().modifyFocus(4, Compose(x => x + 1, x => x * 2)) == 10
    ensures !ComposeModifyAt(IntEvenPrism(), IntEq, 4, x => x + 1, x => x * 2)
  {
  }

  // ---------------------------------------------------------------------------
  // PrismMonoid

  function PrismMonoidEmpty<T>(): (r: M.Maybe<T>)
    ensures r.None?
  {
    M.None
  }

  /** The first `Some` wins. */
  function PrismMonoidCombine<T>(x: M.Maybe<T>, y: M.Maybe<T>): (r: M.Maybe<T>)
    ensures x.Some? ==> r == x
    ensures x.None? ==> r == y
  {
    M.OrElse(x, y)
  }

  lemma PrismMonoidLaws<T(!new)>(x: M.Maybe<T>)
    ensures PrismMonoidCombine(PrismMonoidEmpty(), x) == x
    ensures PrismMonoidCombine(x, PrismMonoidEmpty()) == x
    ensures Associative((u: M.Maybe<T>, v: M.Maybe<T>) => PrismMonoidCombine(u, v))
  {
  }

  /** PrismMonoid is MaybeMonoid over the semigroup that keeps its left argument. */
  lemma PrismMonoidIsMaybeMonoidOfFirst<T>(x: M.Maybe<T>, y: M.Maybe<T>)
    ensures PrismMonoidCombine(x, y) == M.Combine((u: T, v: T) => u, x, y)
  {
  }
}
