/**
 * The type representation of `type/Type.kt` and its kinds: a `Type` is a
 * kind plus a domain of values (only `Undefined` exists).
 */
module Types {
  import opened Decimal
  import opened Wrappers

  datatype Domain = Undefined

  datatype PrimKind = INT | FLOAT | BOOL | STR | TABLE | NIL

  /** Poison marks a type that could not be inferred. */
  datatype Poison =
    | Unknown
    | Ignorable
    | Unresolved
    | Hint(original: Type)
    | UndefinedNamed(name: string)

  /**
   * The kinds of types. `OfUnresolved` is the kind of the recessive
   * `Unresolved` object, distinct from the poison of the same name.
   */
  datatype TypeKind =
    | OfRec(recName: string)
    | OfPrim(primKind: PrimKind, primType: Type)
    | OfHinted(hinted: Type)
    | OfApplied(args: seq<Type>, appliedType: Type)
    | OfFree(freeId: int, level: int)
    | OfQuant(quantId: int)
    | OfPoison(poison: Poison)
    | OfUnresolved

  datatype Type = Type(kind: TypeKind, domain: Domain)

  /** `covered()`: a kind with the default domain. */
  function Covered(k: TypeKind): Type { Type(k, Undefined) }

  function Unresolved(): (t: Type)
    ensures t.kind.OfPoison? && t.domain == Undefined
  {
    Covered(OfPoison(Poison.Unresolved))
  }

  function UndefinedType(name: string): (t: Type)
    ensures t.kind.OfPoison? && t.domain == Undefined
  {
    Covered(OfPoison(UndefinedNamed(name)))
  }

  function UnknownType(): (t: Type)
    ensures t.kind.OfPoison? && t.domain == Undefined
  {
    Covered(OfPoison(Unknown))
  }

  function Poisoned(with: Poison): (t: Type)
    ensures t.kind == OfPoison(with) && t.domain == Undefined
  {
    Covered(OfPoison(with))
  }

  function Free(id: int): Type { Covered(OfFree(id, 0)) }

  predicate IsUnresolved(t: Type) { t.kind.OfUnresolved? }
  predicate IsFree(t: Type) { t.kind.OfFree? }
  predicate IsHinted(t: Type) { t.kind.OfHinted? }
  predicate IsPoisoned(t: Type) { t.kind.OfPoison? }
  predicate IsApplied(t: Type) { t.kind.OfApplied? }
  predicate IsPrim(t: Type) { t.kind.OfPrim? }
  predicate IsUnknown(t: Type) { t.kind == OfPoison(Unknown) }

  /** The recessive kinds: only `Unresolved` is one. */
  predicate IsRecess(t: Type) { t.kind.OfUnresolved? }

  /** Two kinds are of the same variant (Kotlin's `a::class == b::class`). */
  predicate SameKindClass(a: TypeKind, b: TypeKind)
  {
    match (a, b)
    case (OfRec(_), OfRec(_)) => true
    case (OfPrim(_, _), OfPrim(_, _)) => true
    case (OfHinted(_), OfHinted(_)) => true
    case (OfApplied(_, _), OfApplied(_, _)) => true
    case (OfFree(_, _), OfFree(_, _)) => true
    case (OfQuant(_), OfQuant(_)) => true
    case (OfPoison(_), OfPoison(_)) => true
    case (OfUnresolved, OfUnresolved) => true
    case _ => false
  }

  function PoisonNamed(p: Poison): string
  {
    match p
    case Unknown => "Unknown"
    case Ignorable => "Ignorable"
    case Unresolved => "Unresolved"
    case Hint(original) => Named(original) + "..!"
    case UndefinedNamed(name) => name
  }

  /** The name a type is known by; wrappers take the wrapped type's name. */
  function Named(t: Type): string
  {
    match t.kind
    case OfRec(name) => name
    case OfPrim(_, ty) => Named(ty)
    case OfHinted(ty) => Named(ty) + "..?"
    case OfApplied(_, ty) => Named(ty)
    case OfFree(id, _) => "'" + IntToString(id)
    case OfQuant(id) => "'" + IntToString(id)
    case OfPoison(p) => PoisonNamed(p)
    case OfUnresolved => "Unresolved"
  }

  /** Shallow comparison: the same kind variant and the same name. */
  predicate IsSame(a: Type, b: Type)
  {
    SameKindClass(a.kind, b.kind) && Named(a) == Named(b)
  }

  /** `cured()`: the type, unless it is poisoned. */
  function Cured(t: Type): (r: Option<Type>)
    ensures r.None? <==> IsPoisoned(t)
    ensures r.Some? ==> r.value == t
  {
    if IsPoisoned(t) then None else Some(t)
  }

  /** Same name, same kind variant and the same domain. */
  predicate IsIdentical(a: Type, b: Type)
  {
    IsSame(a, b) && a.domain == b.domain
  }

  lemma IsIdenticalIsSame(a: Type, b: Type)
    ensures IsIdentical(a, b) <==> IsSame(a, b)
  {
  }

  /** The `unresolved()` factory builds a poison, which `IsUnresolved` does not recognise. */
  lemma UnresolvedFactoryIsNotUnresolved()
    ensures !IsUnresolved(Unresolved()) && IsPoisoned(Unresolved())
    ensures Named(Unresolved()) == Named(Covered(OfUnresolved))
    ensures !IsSame(Unresolved(), Covered(OfUnresolved))
  {
  }

  /** A free and a quantified type with the same id share a name. */
  lemma FreeAndQuantShareName(id: int)
    ensures Named(Free(id)) == Named(Covered(OfQuant(id)))
    ensures !IsSame(Free(id), Covered(OfQuant(id)))
  {
  }

  /** Free type names tell their ids apart. */
  lemma FreeNamesDistinct(i: int, j: int)
    ensures Named(Free(i)) == Named(Free(j)) <==> i == j
  {
    if Named(Free(i)) == Named(Free(j)) {
      assert IntToString(i) == Named(Free(i))[1..];
      assert IntToString(j) == Named(Free(j))[1..];
      IntToStringInjective(i, j);
    }
  }

  /** `isSame` is an equivalence. */
  lemma IsSameEquivalence(a: Type, b: Type, c: Type)
    ensures IsSame(a, a)
    ensures IsSame(a, b) ==> IsSame(b, a)
    ensures IsSame(a, b) && IsSame(b, c) ==> IsSame(a, c)
  {
  }

  /** A named prelude record type wrapped as a primitive, like `PreludeTypes.INT`. */
  function PreludePrim(name: string, kind: PrimKind): (t: Type)
    ensures IsPrim(t) && Named(t) == name
  {
    Covered(OfPrim(kind, Covered(OfRec(name))))
  }
}
