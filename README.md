# Bow's Maybe, Try, TraverseFilter and prism laws in Dafny

This project models the value-level core of Bow, a Swift library for functional
programming:

- `Maybe<A>` is an optional value, `Some(a)` or `None`. Every operation is built
  from its single elimination form, `fold`. The model also covers its
  Semigroup/Monoid, Eq and MonadError instances (module `MaybeData`,
  `maybe.dfy`).
- `Try<A>` is a success-or-error result, `Success(value)` or `Failure(error)`.
  Its `fold` routes an error thrown by the success branch to the failure
  branch. `invoke` captures a throwing computation. The model also covers its
  MonadError and Eq instances (module `TryData`, `try.dfy`).
- The TraverseFilter typeclass derives `mapFilter`, `filterA` and `filter` from
  `traverseFilter` (module `TraverseFilter`, `traverse_filter.dfy`).
- The prism law battery and the "first `Some` wins" `PrismMonoid` (module
  `PrismLaws`, `prism_laws.dfy`).

Module `Base` (`base.dfy`) holds the shared vocabulary:

- `Either`, used by `tailRecM` and by prisms.
- The identity applicative `Id`.
- `Optional`, which models Swift's native `A?`.
- `Unit`.
- `Fuelled`, the result of a recursion bounded by fuel.
- The predicates that Eq and Semigroup instances must satisfy: `Equivalence`
  and `Associative`.

How the Swift constructs are represented:

- Maybe and Try are closed datatypes, so the source's `default: fatalError`
  branches cannot be reached and are not modelled.
- A Swift closure that may throw is a function returning
  `Outcome<B> = Returns(value) | Throws(thrown)`.
- Swift's open `Error` is the closed datatype `Error`. It has the three
  `TryError` cases plus `UserError(id)`, which stands for any error thrown by
  caller code.
- Swift string interpolation is not modelled as such; it becomes a parameter:
  - The message of `Try.filter` is built from `show(a)`.
  - TryEq compares failures by `describe(error)`. This stands for `"\(error)"`.
- Dafny has no higher-kinded types, so the applicative of `traverse` and
  `traverseFilter` is fixed:
  - to `Id`;
  - also to Maybe, for `traverseFilter`, `filterA` and Try's `traverse`.
- The TraverseFilter container is fixed to Maybe.
- A prism is a record of its five operations, with no bodies assumed. Its
  fields `getOrModify`, `reverseGet` and `getMaybe` keep their names. `modify`
  and `set` are Dafny keywords, so they become `modifyFocus` and `setFocus`.
- Each law is two predicates:
  - a per-sample predicate (`PartialRoundTripOneWayAt`, `RoundTripOtherWayAt`,
    `ModifyIdAt`, `ComposeModifyAt`, `ConsistentSetModifyAt`; lines 16-47 of
    Tests/BowTests/Optics/Laws/PrismLaws.swift);
  - a law that quantifies it over every sample.

  `Lawful` is the conjunction that `check` runs (lines 6-14 of the same file).

Two consequences of Bow's own code shape the model:

- Both `tailRecM`s recurse natively (Sources/Bow/Data/Maybe.swift:31-38,
  Sources/Bow/Data/Try.swift:38-44), so neither is stack-safe. Here `tailRecM`
  is a recursion bounded by a fuel argument.
- An even-number prism whose focus type is plain `Int` breaks the
  compose-modify law. At 4, modifying with `+1` and then with `*2` gives 5, but
  modifying once with `(x + 1) * 2` gives 10 (`IntEvenPrismBreaksComposeModify`).
  The lawful example prism `EvenPrism` therefore has the subset type `Even` as
  its focus type.

## Model

| member | source | states |
|---|---|---|
| MaybeData.Pure | Sources/Bow/Data/Maybe.swift:15-17 | `pure(a)` is the present value `a`. |
| MaybeData.Empty | Sources/Bow/Data/Maybe.swift:19-21 | `empty()` is the empty value. |
| MaybeData.Fold | Sources/Bow/Data/Maybe.swift:53-62 | The elimination form: `Some(a)` goes to `f(a)`, `None` to `ifEmpty()`. |
| MaybeData.FoldWithConstructors | Sources/Bow/Data/Maybe.swift:53-62 | Folding with `None` and `Some` rebuilds any value, so `fold` loses nothing. |
| MaybeData.IsEmpty | Sources/Bow/Data/Maybe.swift:44-47 | `isEmpty` holds exactly for `None`. |
| MaybeData.IsDefined | Sources/Bow/Data/Maybe.swift:49-51 | `isDefined` holds exactly for `Some`. |
| MaybeData.Map | Sources/Bow/Data/Maybe.swift:64-67 | `map` keeps the case: `None` stays `None`, and `Some(a)` becomes `Some(f(a))`. |
| MaybeData.MapIdentity | Sources/Bow/Data/Maybe.swift:64-67 | Functor identity: `map(id)` is the identity. |
| MaybeData.MapComposition | Sources/Bow/Data/Maybe.swift:64-67 | Functor composition: `map(f)` then `map(g)` is `map(g∘f)`. |
| MaybeData.Ap | Sources/Bow/Data/Maybe.swift:69-71 | `ap` is `Some` exactly when both the value and the function are present, and then holds the function applied to the value. |
| MaybeData.ApLaws | Sources/Bow/Data/Maybe.swift:69-71 | Applicative identity and homomorphism. `ap` with a pure function is `map`. |
| MaybeData.FlatMap | Sources/Bow/Data/Maybe.swift:73-75 | `flatMap` gives `None` on `None` and `f(a)` on `Some(a)`. |
| MaybeData.MonadLeftIdentity | Sources/Bow/Data/Maybe.swift:15-17 | `flatMap(pure(a), f) == f(a)`. |
| MaybeData.MonadRightIdentity | Sources/Bow/Data/Maybe.swift:73-75 | `x.flatMap(some) == x`. |
| MaybeData.MonadAssociativity | Sources/Bow/Data/Maybe.swift:73-75 | Chained `flatMap`s reassociate. |
| MaybeData.EmptyAbsorbs | Sources/Bow/Data/Maybe.swift:19-21 | The MonadFilter `empty` (`None`) is a zero for `flatMap`. |
| MaybeData.FoldL | Sources/Bow/Data/Maybe.swift:77-80 | `foldL` is the seed on `None` and `f(seed, a)` on `Some(a)`. |
| MaybeData.TailRecM | Sources/Bow/Data/Maybe.swift:31-38 | If `f` yields `None`, the result is `None`. On `Some(Right(b))` the result is `Some(b)`. On `Left` it recurses on the new seed. Each call of `f` uses one unit of fuel. |
| MaybeData.TailRecMFuelMonotone | Sources/Bow/Data/Maybe.swift:31-38 | Once the recursion has finished, more fuel gives the same result. |
| MaybeData.TailRecMTerminates | Sources/Bow/Data/Maybe.swift:31-38 | If `f` lowers a rank at every `Left`, then fuel above the seed's rank lets the recursion finish. |
| MaybeData.TraverseId | Sources/Bow/Data/Maybe.swift:91-94 | `traverse` in `Id` is `map` with the effect extracted. |
| MaybeData.TraverseFilterId | Sources/Bow/Data/Maybe.swift:96-98 | `traverseFilter` in `Id` gives `pure(None)` on `None` and `f(a)` on `Some(a)`. |
| MaybeData.TraverseFilterMaybe | Sources/Bow/Data/Maybe.swift:96-98 | `traverseFilter` in the Maybe applicative gives `Some(None)` on `None` and `f(a)` on `Some(a)`. |
| MaybeData.MapFilter | Sources/Bow/Data/Maybe.swift:87-89 | `mapFilter` keeps an element exactly when its mapping `f(a)` is present, and then holds that mapping; an absent input or mapping gives `None`. |
| MaybeData.MapFilterIsFlatMap | Sources/Bow/Data/Maybe.swift:87-89 | `mapFilter` is the same function as `flatMap`. |
| MaybeData.MapFilterSomeIsMap | Sources/Bow/Data/Maybe.swift:87-89 | FunctorFilter law: `mapFilter(some ∘ f)` is `map(f)`. |
| MaybeData.Filter | Sources/Bow/Data/Maybe.swift:100-103 | `filter(p)` is `Some` exactly when the input is `Some(a)` with `p(a)`. It is then the input itself, and otherwise `None`. |
| MaybeData.FilterNot | Sources/Bow/Data/Maybe.swift:105-107 | `filterNot(p)` keeps `Some(a)` exactly when `!p(a)`, like `filter` of the negation. |
| MaybeData.FilterPartition | Sources/Bow/Data/Maybe.swift:100-107 | A present value survives exactly one of `filter(p)` and `filterNot(p)`. |
| MaybeData.Exists | Sources/Bow/Data/Maybe.swift:109-111 | `exists(p)` holds exactly for `Some(a)` with `p(a)`. |
| MaybeData.ForAll | Sources/Bow/Data/Maybe.swift:113-115 | `forall` as written calls `exists`. It is false on `None` and `p(a)` on `Some(a)`. |
| MaybeData.ForAllIntended | Sources/Bow/Data/Maybe.swift:113-115 | Corrected `forall`: true on `None`, and `p(a)` on `Some(a)`. |
| MaybeData.ForAllIntendedIsDualOfExists | Sources/Bow/Data/Maybe.swift:109-115 | Corrected `forall(p)` is `!exists(!p)`. |
| MaybeData.ForAllAsWrittenRejectsNone | Sources/Bow/Data/Maybe.swift:113-115 | The as-written `forall` of an always-true predicate is false on `None`. The intended one is true. |
| MaybeData.GetOrElseWith | Sources/Bow/Data/Maybe.swift:121-123 | Thunk `getOrElse` returns the payload of `Some`, or the thunk's value for `None`. |
| MaybeData.GetOrElse | Sources/Bow/Data/Maybe.swift:117-119 | `getOrElse(d)` returns the payload of `Some`, or `d` for `None`. |
| MaybeData.OrElseWith | Sources/Bow/Data/Maybe.swift:129-131 | Thunk `orElse` returns the receiver if it is `Some`, or else the thunk's value. |
| MaybeData.OrElse | Sources/Bow/Data/Maybe.swift:125-127 | `orElse(y)` returns the receiver if it is `Some`, or else `y`. |
| MaybeData.OrElseGetOrElse | Sources/Bow/Data/Maybe.swift:117-131 | `getOrElse` after `orElse(Some(y))` never reaches its default, and is `getOrElse(y)`. |
| MaybeData.FromOption | Sources/Bow/Data/Maybe.swift:23-29 | `fromOption` sends `nil` to `None` and a wrapped value to `Some`. |
| MaybeData.ToOption | Sources/Bow/Data/Maybe.swift:133-135 | `toOption` sends `None` to `nil` and `Some(a)` to the wrapped `a`. |
| MaybeData.OptionRoundTrip | Sources/Bow/Data/Maybe.swift:23-29 | `fromOption` then `toOption`, and `toOption` then `fromOption`, are both the identity. |
| MaybeData.Combine | Sources/Bow/Data/Maybe.swift:235-242 | MaybeSemigroup: `None` on either side yields the other argument. Two `Some`s combine their payloads with the inner semigroup. |
| MaybeData.CombineIdentity | Sources/Bow/Data/Maybe.swift:245-249 | The monoid's `empty` (`None`) is a left and right identity of `combine`. |
| MaybeData.CombineAssociative | Sources/Bow/Data/Maybe.swift:235-242 | `combine` is associative whenever the inner semigroup is. |
| MaybeData.RaiseError | Sources/Bow/Data/Maybe.swift:254-256 | `raiseError` is `None`. |
| MaybeData.HandleErrorWith | Sources/Bow/Data/Maybe.swift:258-260 | `handleErrorWith` keeps a `Some`. It replaces `None` with the handler's result at `unit`, as `orElse` does. |
| MaybeData.MonadErrorLaws | Sources/Bow/Data/Maybe.swift:251-261 | Handling a raised error runs the handler. Handling a pure value returns it. |
| MaybeData.Eqv | Sources/Bow/Data/Maybe.swift:272-277 | MaybeEq: `None` equals only `None`. `Some(a)` equals `Some(b)` exactly when `eqr(a, b)`. |
| MaybeData.EqvEquivalence | Sources/Bow/Data/Maybe.swift:272-277 | MaybeEq is reflexive, symmetric and transitive whenever `eqr` is. |
| TryData.Pure | Sources/Bow/Data/Try.swift:21-23 | `pure(value)` is a success holding `value`. |
| TryData.Raise | Sources/Bow/Data/Try.swift:25-27 | `raise(error)` is a failure carrying `error`. |
| TryData.Invoke | Sources/Bow/Data/Try.swift:29-36 | `invoke` is `Success(v)` when the computation returns `v`, and `Failure(e)` when it throws `e`. |
| TryData.InvokeInjective | Sources/Bow/Data/Try.swift:29-36 | Two computations are captured alike exactly when they behave alike. |
| TryData.Fold | Sources/Bow/Data/Try.swift:50-63 | `Failure(e)` goes to `fe(e)`. `Success(v)` goes to `fa(v)`, except that an error `e'` thrown by `fa` gives `fe(e')`. |
| TryData.FoldWithConstructors | Sources/Bow/Data/Try.swift:50-63 | Folding with `Failure` and `Success` rebuilds any value. |
| TryData.FoldCatchesLikeInvoke | Sources/Bow/Data/Try.swift:50-63 | A throw in the success branch reaches `fe` with the same error that `invoke` would capture. |
| TryData.FoldL | Sources/Bow/Data/Try.swift:65-68 | `foldL` is the seed on a failure and `f(seed, v)` on a success. |
| TryData.TraverseId | Sources/Bow/Data/Try.swift:75-78 | `traverse` in `Id` turns any failure into `Failure(illegalState)`, and `Success(a)` into `Success(f(a))`. |
| TryData.TraverseMaybe | Sources/Bow/Data/Try.swift:75-78 | `traverse` in Maybe turns any failure into `Some(Failure(illegalState))`. On `Success(a)` it is `None` exactly when `f(a)` is, and otherwise `Some(Success(b))`. |
| TryData.TraverseIdIsMapOrIllegalState | Sources/Bow/Data/Try.swift:75-78 | On successes, `traverse` in `Id` is `map`. On failures it forgets which error there was. |
| TryData.Map | Sources/Bow/Data/Try.swift:80-82 | `map` keeps a failure's error, and maps a success's value. |
| TryData.MapIdentity | Sources/Bow/Data/Try.swift:80-82 | Functor identity. |
| TryData.MapComposition | Sources/Bow/Data/Try.swift:80-82 | Functor composition. |
| TryData.FlatMap | Sources/Bow/Data/Try.swift:84-86 | `flatMap` keeps a failure's error, and gives `f(v)` on `Success(v)`. |
| TryData.MonadLeftIdentity | Sources/Bow/Data/Try.swift:84-86 | `flatMap(pure(a), f) == f(a)`. |
| TryData.MonadRightIdentity | Sources/Bow/Data/Try.swift:84-86 | `flatMap(pure)` is the identity. |
| TryData.MonadAssociativity | Sources/Bow/Data/Try.swift:84-86 | Chained `flatMap`s reassociate. |
| TryData.MapIsFlatMapPure | Sources/Bow/Data/Try.swift:80-86 | `map(f)` is `flatMap(pure ∘ f)`. |
| TryData.Ap | Sources/Bow/Data/Try.swift:88-90 | `ap` propagates the function's error first, then the value's. With both present it applies the function. |
| TryData.TailRecM | Sources/Bow/Data/Try.swift:38-44 | A failure of `f` ends with that error. `Right(b)` ends with `Success(b)`. `Left` recurses on the new seed. Each call of `f` uses one unit of fuel. |
| TryData.TailRecMFuelMonotone | Sources/Bow/Data/Try.swift:38-44 | Once the recursion has finished, more fuel gives the same result. |
| TryData.TailRecMErrorComesFromStep | Sources/Bow/Data/Try.swift:38-44 | Any error the recursion ends with is an error that `f` returned for some seed. |
| TryData.Filter | Sources/Bow/Data/Try.swift:92-98 | `filter(p)` keeps failures and successes that satisfy `p`. A success that fails `p` becomes `Failure(predicateError("Predicate does not hold for " + show(a)))`. |
| TryData.Failed | Sources/Bow/Data/Try.swift:100-103 | `failed` maps `Failure(e)` to `Success(e)`, and any success to `Failure(unsupportedOperation("Success.failed"))`. |
| TryData.FailedRoundTrip | Sources/Bow/Data/Try.swift:100-103 | On a failure, raising the projected error again gives back the original. On a success, this gives the unsupported-operation error. |
| TryData.GetOrElse | Sources/Bow/Data/Try.swift:105-107 | `getOrElse(d)` returns the success value, or `d`. |
| TryData.RecoverWith | Sources/Bow/Data/Try.swift:109-111 | `recoverWith(g)` keeps a success, and gives `g(e)` on `Failure(e)`. |
| TryData.Recover | Sources/Bow/Data/Try.swift:113-115 | `recover(f)` keeps a success, and gives `Success(f(e))` on `Failure(e)`. |
| TryData.RecoverIsRecoverWith | Sources/Bow/Data/Try.swift:109-115 | `recover` always succeeds. It is `recoverWith` of a success-producing handler. |
| TryData.Transform | Sources/Bow/Data/Try.swift:117-119 | `transform` sends a failure to `failure(e)` and a success to `success(v)`. |
| TryData.TransformSplits | Sources/Bow/Data/Try.swift:117-119 | `transform` is `flatMap` on successes and `recoverWith` on failures. |
| TryData.RaiseError | Sources/Bow/Data/Try.swift:204-206 | `raiseError(e)` is `Failure(e)`. |
| TryData.HandleErrorWith | Sources/Bow/Data/Try.swift:208-210 | `handleErrorWith` keeps a success, and gives `f(e)` on `Failure(e)`. |
| TryData.MonadErrorLaws | Sources/Bow/Data/Try.swift:201-211 | Handling a raised error runs the handler. Handling a pure value returns it. Re-raising is the identity. |
| TryData.Eqv | Sources/Bow/Data/Try.swift:221-226 | TryEq: a failure never equals a success. Failures are equal exactly when their error descriptions are equal, and successes exactly when `eqr` relates their values. |
| TryData.EqvEquivalence | Sources/Bow/Data/Try.swift:221-226 | TryEq is reflexive, symmetric and transitive whenever `eqr` is. |
| TraverseFilter.MapFilter | Sources/Bow/Typeclasses/TraverseFilter.swift:8-10 | Derived `mapFilter` (`traverseFilter` in `Id`, then extracted) equals Maybe's own `mapFilter`. |
| TraverseFilter.FilterAId | Sources/Bow/Typeclasses/TraverseFilter.swift:12-14 | `filterA` in `Id` keeps `Some(a)` exactly when its effect yields true. |
| TraverseFilter.FilterAMaybe | Sources/Bow/Typeclasses/TraverseFilter.swift:12-14 | `filterA` in Maybe is `Some(None)` on `None`. On `Some(a)` it is `None` when the effect is missing. Otherwise it keeps or drops `a` as the effect's boolean says. |
| TraverseFilter.Filter | Sources/Bow/Typeclasses/TraverseFilter.swift:16-18 | Derived `filter` equals Maybe's own `filter`. |
| TraverseFilter.DerivedAgreesWithDirect | Sources/Bow/Typeclasses/TraverseFilter.swift:8-18 | Derived `mapFilter` is `flatMap`, derived `filter` is `Maybe.filter`, and `filterA` with pure effects is `pure` of `filter`. |
| TraverseFilter.FilterConstant | Sources/Bow/Typeclasses/TraverseFilter.swift:16-18 | Derived `filter` with an always-true predicate is the identity. With an always-false one it is `None`. |
| TraverseFilter.FilterComposes | Sources/Bow/Typeclasses/TraverseFilter.swift:16-18 | Derived `filter` is idempotent. Two filters equal one filter on the conjunction. |
| PrismLaws.PartialRoundTripOneWayAt | Tests/BowTests/Optics/Laws/PrismLaws.swift:16-20 | One sample of "partial round trip one way". If `getOrModify(a)` is `Left(a')`, the sample holds exactly when `eqA(a', a)`. If it is `Right(b)`, the sample holds exactly when `eqA(reverseGet(b), a)`. `PartialRoundTripOneWay` quantifies it over every `a`. |
| PrismLaws.RoundTripOtherWayAt | Tests/BowTests/Optics/Laws/PrismLaws.swift:22-27 | One sample of "round trip other way", compared by Maybe's Eq. It holds exactly when `getMaybe(reverseGet(b))` is present and `eqB`-equal to `b`. `RoundTripOtherWay` quantifies it over every `b`. |
| PrismLaws.ModifyIdAt | Tests/BowTests/Optics/Laws/PrismLaws.swift:29-33 | One sample of "modify id": `modify(a, id)` is `eqA`-equal to `a`. Under a reflexive `eqA`, a `modify` that returns `a` itself passes. `ModifyId` quantifies it over every `a`. |
| PrismLaws.ComposeModifyAt | Tests/BowTests/Optics/Laws/PrismLaws.swift:35-40 | One sample of "compose modify": `modify(modify(a, f), g)` is `eqA`-equal to `modify(a, g <<< f)`. Under a reflexive `eqA`, equal results pass. `ComposeModify` quantifies it over every `a`, `f` and `g`. |
| PrismLaws.ConsistentSetModifyAt | Tests/BowTests/Optics/Laws/PrismLaws.swift:42-47 | One sample of "consistent set - modify": `set(a, b)` is `eqA`-equal to `modify(a, constF(b))`. Under a reflexive `eqA`, equal results pass. `ConsistentSetModify` quantifies it over every `a` and `b`. |
| PrismLaws.Lawful | Tests/BowTests/Optics/Laws/PrismLaws.swift:6-14 | The battery `check` runs: the conjunction of the five quantified laws above. The two `modifyF` laws are not included. |
| PrismLaws.LawfulRoundTrips | Tests/BowTests/Optics/Laws/PrismLaws.swift:6-27 | For a lawful prism, extracting from `reverseGet(b)` always succeeds and gives back `b` up to `eqB`. Whatever `getOrModify(a)` returns leads back to `a` up to `eqA`. |
| PrismLaws.ReverseGetInjective | Tests/BowTests/Optics/Laws/PrismLaws.swift:22-27 | If the round-trip-other-way law holds and `eqB` is an equivalence, two foci with the same `reverseGet` are `eqB`-equal. |
| PrismLaws.EvenPrismLawful | Tests/BowTests/Optics/Laws/PrismLaws.swift:6-14 | The law battery is satisfiable: the even-integer prism passes all five laws under plain equality. It extracts 4 but not 3. |
| PrismLaws.IntEvenPrismBreaksComposeModify | Tests/BowTests/Optics/Laws/PrismLaws.swift:35-40 | The compose-modify law rules out an even prism with an `Int` focus: at 4, with `+1` then `*2`, modifying twice gives 5 and modifying once with the composition gives 10. |
| PrismLaws.PrismMonoidEmpty | Tests/BowTests/Optics/Laws/PrismLaws.swift:65-67 | `empty` is `None`. |
| PrismLaws.PrismMonoidCombine | Tests/BowTests/Optics/Laws/PrismLaws.swift:69-71 | `combine(a, b)` is `a` when `a` is `Some`, and `b` otherwise, so the first `Some` wins. |
| PrismLaws.PrismMonoidLaws | Tests/BowTests/Optics/Laws/PrismLaws.swift:63-72 | `None` is a two-sided identity, and `combine` is associative. |
| PrismLaws.PrismMonoidIsMaybeMonoidOfFirst | Tests/BowTests/Optics/Laws/PrismLaws.swift:63-72 | PrismMonoid is MaybeMonoid over the semigroup that keeps its left argument. |

## Left out

- MaybeData.TailRecM: bounded by an explicit fuel argument. It runs out of fuel where the source would recurse without end. Stack safety is not claimed, because the source recurses natively.
- TryData.TailRecM: bounded by fuel, for the same reason as `MaybeData.TailRecM`.
- The `Kind`/`ForMaybe`/`ForTry` witness classes and the `fix()` downcasts are not modelled. They are a Swift typing device that the Dafny datatypes replace.
- The typeclass wrapper classes (`MaybeFunctor`, `TryMonad` and the like) are not modelled, because they only forward to the concrete operations modelled here.
- The cast `e as! C` in `TryMonadError.handleErrorWith` is not modelled, because the model has a single error type.
- Laziness of the thunk forms of `getOrElse` and `orElse` is not modelled. Both overloads are present, but evaluation order is not observable in a pure model.
- `foldR` is not modelled, because it needs the lazy `Eval` type, which is not part of this model.
- The `description` string rendering is not modelled. Where the source depends on it, the rendering is a parameter: `show` for `Try.filter`'s message and `describe` for TryEq.
- `traverse`, `traverseFilter` and `filterA` over an arbitrary applicative are not modelled, for lack of higher-kinded types. Only `Id` and Maybe are instantiated.
- The two `modifyF` laws of the prism battery are not modelled, because they need `Prism.modifyF` and the `Const` applicative, which are not part of this model. `PrismMonoid`, which they use, is modelled.
- The `Prism` type's own operations are not modelled, because its source is not part of this model. Prisms are abstract records.
- Random sample generation, shrinking and counterexample reporting are not modelled; each law is a predicate over all samples instead. This covers SwiftCheck's `property`, `forAll`, `Arbitrary` and `ArrowOf`.

## Findings

| source | as written | input that shows it | evidently intended | confidence | as-written member | corrected member |
|---|---|---|---|---|---|---|
| Sources/Bow/Data/Maybe.swift:113-115 | `forall` returns `exists(predicate)` | `None.forall({ _ in true })` is false | `forall` is vacuously true on `None`, as in Scala's and Arrow's `Option.forall` | not executed; follows from the code alone | MaybeData.ForAllAsWrittenRejectsNone | MaybeData.ForAllIntendedIsDualOfExists |
