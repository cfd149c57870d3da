/** The pair queries of `infer/comp/BothTypes.kt`. */
module InferBothTypes {
  import opened Types

  /** Unifiable when either side is free, otherwise when both kinds are the same variant. */
  predicate CanBeUnified(a: Type, b: Type)
  {
    if a.kind.OfFree? || b.kind.OfFree? then true else SameKindClass(a.kind, b.kind)
  }

  predicate HaveSameName(a: Type, b: Type) { Named(a) == Named(b) }

  /** Both sides applied with the same number of type arguments; `require` holds the rest. */
  predicate HaveSameArity(a: Type, b: Type)
    requires IsApplied(a) && IsApplied(b)
  {
    |a.kind.args| == |b.kind.args|
  }

  /** Both sides primitive with the same primitive kind; `require` holds the rest. */
  predicate HaveSamePrimKind(a: Type, b: Type)
    requires IsPrim(a) && IsPrim(b)
  {
    a.kind.primKind == b.kind.primKind
  }

  /** Named as though both had to be unknown, but true when either is. */
  predicate AreUnknown(a: Type, b: Type) { IsUnknown(a) || IsUnknown(b) }

  predicate EitherIsFree(a: Type, b: Type) { IsFree(a) || IsFree(b) }

  predicate EitherIsUnknown(a: Type, b: Type) { IsUnknown(a) || IsUnknown(b) }

  /** The side that is not free, preferring `b`. */
  function PickUnifiable(a: Type, b: Type): (r: Type)
    ensures r == a || r == b
    ensures IsFree(r) ==> IsFree(a) && IsFree(b)
    ensures IsFree(a) && IsFree(b) ==> r == a
    ensures !IsFree(b) ==> r == b
  {
    if IsFree(b) then a else b
  }

  /** A free side makes any pair unifiable; otherwise the kinds must match and the relation is symmetric. */
  lemma CanBeUnifiedFacts(a: Type, b: Type)
    ensures EitherIsFree(a, b) ==> CanBeUnified(a, b)
    ensures !EitherIsFree(a, b) ==> (CanBeUnified(a, b) <==> SameKindClass(a.kind, b.kind))
    ensures CanBeUnified(a, b) <==> CanBeUnified(b, a)
  {
  }

  /** `areUnknown` and `eitherIsUnknown` are the same test. */
  lemma AreUnknownIsEither(a: Type, b: Type)
    ensures AreUnknown(a, b) <==> EitherIsUnknown(a, b)
    ensures AreUnknown(UnknownType(), Free(0))
  {
  }
}

/** The pair queries and picks of `type/comp/BothTypes.kt`. */
module TypeBothTypes {
  import opened Types

  /** Unifiable when either side is recessive, otherwise when both kinds are the same variant. */
  predicate CanBeUnified(a: Type, b: Type)
  {
    if IsRecess(a) || IsRecess(b) then true else SameKindClass(a.kind, b.kind)
  }

  predicate EitherIsFree(a: Type, b: Type) { IsFree(a) || IsFree(b) }
  predicate EitherIsHinted(a: Type, b: Type) { IsHinted(a) || IsHinted(b) }
  predicate EitherIsPoisoned(a: Type, b: Type) { IsPoisoned(a) || IsPoisoned(b) }
  predicate EitherIsUnresolved(a: Type, b: Type) { IsUnresolved(a) || IsUnresolved(b) }
  predicate AreSame(a: Type, b: Type) { IsSame(a, b) }
  predicate EitherIsUnknown(a: Type, b: Type) { IsUnknown(a) || IsUnknown(b) }

  /** The side that is not unresolved, preferring `b`. */
  function PickResolved(a: Type, b: Type): (r: Type)
    ensures r == a || r == b
    ensures IsUnresolved(r) ==> IsUnresolved(a) && IsUnresolved(b)
    ensures IsUnresolved(a) && IsUnresolved(b) ==> r == a
    ensures !IsUnresolved(b) ==> r == b
  {
    if IsUnresolved(b) then a else b
  }

  /** The type hinted on a hinted side, `a` first; the source requires a hinted side. */
  function PickHinted(a: Type, b: Type): (r: Type)
    requires EitherIsHinted(a, b)
    ensures IsHinted(a) ==> r == a.kind.hinted
    ensures !IsHinted(a) ==> r == b.kind.hinted
  {
    if IsHinted(a) then a.kind.hinted else b.kind.hinted
  }

  /** Ignorable when an unknown is involved, so that an error is reported only once. */
  function PickPoison(a: Type, b: Type): (r: Type)
    ensures IsPoisoned(r)
    ensures EitherIsUnknown(a, b) ==> r.kind.poison == Ignorable
    ensures !EitherIsUnknown(a, b) ==> r.kind.poison == Unknown
  {
    if EitherIsUnknown(a, b) then Poisoned(Ignorable) else UnknownType()
  }

  /** The type under a hint, or the type itself. */
  function UnwrapHint(t: Type): (r: Type)
    ensures IsHinted(t) ==> r == t.kind.hinted
    ensures !IsHinted(t) ==> r == t
  {
    if IsHinted(t) then t.kind.hinted else t
  }

  /** Both sides with one layer of hint removed where present. */
  function UnwrapHints(a: Type, b: Type): (r: (Type, Type))
    ensures r.0 == UnwrapHint(a) && r.1 == UnwrapHint(b)
  {
    (UnwrapHint(a), UnwrapHint(b))
  }

  /** Unwrapping strips exactly the hint layers, so the unwrapped side is smaller. */
  lemma UnwrapHintShrinks(t: Type)
    ensures IsHinted(t) ==> UnwrapHint(t) < t
    ensures !IsHinted(t) ==> UnwrapHint(t) == t
  {
  }
}
