/**
 * Type unification of `infer/unify/Unify.kt`. The source calls its pair
 * queries on `infer.comp.BothTypes`, but half of them (`eitherIsHinted`,
 * `eitherIsPoisoned`, `pickHinted`, `unwrapHints`) exist only on
 * `type.comp.BothTypes`; each is taken from the file that defines it.
 */
module Unify {
  import opened Wrappers
  import opened Types
  import InferBothTypes
  import TypeBothTypes

  /** The first error among the results, or all their values. */
  function Collect(rs: seq<Result<Type>>): (r: Result<seq<Type>>)
    ensures r.Ok? <==> forall i :: 0 <= i < |rs| ==> rs[i].Ok?
    ensures r.Ok? ==> |r.value| == |rs| && forall i :: 0 <= i < |rs| ==> r.value[i] == rs[i].value
  {
    if rs == [] then Ok([])
    else if rs[0].Err? then Err(rs[0].error)
    else
      var rest :- Collect(rs[1..]);
      Ok([rs[0].value] + rest)
  }

  /**
   * Unifies `a` with `b`. A pair of kinds that cannot meet gives Unknown;
   * a free side gives the other side; hints are unified underneath and a
   * failure poisons the hint; a poisoned side gives Ignorable; otherwise the
   * two same-variant kinds are unified structurally. Quantified and
   * unresolved kinds throw.
   */
  function Infer(a: Type, b: Type): (r: Result<Type>)
    decreases a, b, 1
  {
    if !InferBothTypes.CanBeUnified(a, b) then Ok(UnknownType())
    else if InferBothTypes.EitherIsFree(a, b) then Ok(InferBothTypes.PickUnifiable(a, b))
    else if TypeBothTypes.EitherIsHinted(a, b) then
      var hinted := TypeBothTypes.PickHinted(a, b);
      TypeBothTypes.UnwrapHintShrinks(a);
      TypeBothTypes.UnwrapHintShrinks(b);
      var inner :- Infer(TypeBothTypes.UnwrapHint(a), TypeBothTypes.UnwrapHint(b));
      Ok(if Cured(inner).Some? then inner else Poisoned(Hint(hinted)))
    else if TypeBothTypes.EitherIsPoisoned(a, b) then Ok(UnifyPoison())
    else
      match a.kind
      case OfApplied(aArgs, aType) =>
        if !InferBothTypes.HaveSameArity(a, b) then Ok(UnknownType())
        else
          var unified :- Infer(aType, b.kind.appliedType);
          if Cured(unified).Some? then
            var args :- Together(aArgs, b.kind.args);
            Ok(Covered(OfApplied(args, unified)))
          else Ok(UnknownType())
      case OfPrim(kind, aType) =>
        if InferBothTypes.HaveSamePrimKind(a, b) then
          var unified :- Infer(aType, b.kind.primType);
          Ok(Covered(OfPrim(kind, unified)))
        else Ok(UnknownType())
      case OfRec(_) => Ok(if InferBothTypes.HaveSameName(a, b) then a else UnknownType())
      case OfPoison(_) => Ok(UnifyPoison())
      case _ => Err(IllegalArgumentException)
  }

  function UnifyPoison(): (t: Type)
    ensures t.kind == OfPoison(Ignorable)
  {
    Poisoned(Ignorable)
  }

  /** Unifies two lists pairwise, as far as the shorter one goes. */
  function Together(xs: seq<Type>, ys: seq<Type>): (r: Result<seq<Type>>)
    decreases xs, ys, 0
  {
    var n := if |xs| <= |ys| then |xs| else |ys|;
    Collect(seq(n, i requires 0 <= i < n => Infer(xs[i], ys[i])))
  }

  /**
   * Unifies a list left to right, pairwise. With fewer than two types the
   * source recurses on an empty list forever, which the JVM ends with a stack
   * overflow.
   */
  function All(types: seq<Type>): (r: Result<Type>)
    ensures |types| < 2 ==> r == Err(StackOverflowError)
    ensures |types| == 2 ==> r == Infer(types[0], types[1])
    decreases |types|
  {
    if |types| == 2 then Infer(types[0], types[1])
    else if |types| < 2 then Err(StackOverflowError)
    else
      var init :- All(types[..|types| - 1]);
      Infer(init, types[|types| - 1])
  }

  /**
   * `a`, when some given type and `b` both share its name; Unknown
   * otherwise. No unification takes place.
   */
  function Assuming(a: Type, b: Type, types: seq<Type>): (r: Type)
    ensures (exists t :: t in types && Named(t) == Named(a)) && Named(a) == Named(b) ==> r == a
    ensures !((exists t :: t in types && Named(t) == Named(a)) && Named(a) == Named(b)) ==> r == UnknownType()
  {
    var contained := exists t :: t in types && InferBothTypes.HaveSameName(t, a);
    if contained && InferBothTypes.HaveSameName(a, b) then a else UnknownType()
  }

  /** `what` when `a` and `b` share a name, Unknown otherwise. */
  function Into(a: Type, b: Type, what: Type): (r: Type)
    ensures Named(a) == Named(b) ==> r == what
    ensures Named(a) != Named(b) ==> r == UnknownType()
  {
    if InferBothTypes.HaveSameName(a, b) then what else UnknownType()
  }

  /** Records, primitives and applied types built from them: no free, hinted, poisoned or quantified part. */
  predicate Ground(t: Type)
  {
    match t.kind
    case OfRec(_) => true
    case OfPrim(_, ty) => Ground(ty)
    case OfApplied(args, ty) => Ground(ty) && forall i :: 0 <= i < |args| ==> Ground(args[i])
    case _ => false
  }

  /** No quantified or unresolved kind anywhere that unification would reach. */
  predicate NoQuant(t: Type)
  {
    match t.kind
    case OfQuant(_) => false
    case OfUnresolved => false
    case OfPrim(_, ty) => NoQuant(ty)
    case OfHinted(ty) => NoQuant(ty)
    case OfApplied(args, ty) => NoQuant(ty) && forall i :: 0 <= i < |args| ==> NoQuant(args[i])
    case _ => true
  }

  /** Kinds that cannot meet unify to Unknown. */
  lemma InferUnunifiable(a: Type, b: Type)
    requires !InferBothTypes.CanBeUnified(a, b)
    ensures Infer(a, b) == Ok(UnknownType())
  {
  }

  /** A free side yields the other side, or `a` when `b` is free. */
  lemma InferFree(a: Type, b: Type)
    requires IsFree(a) || IsFree(b)
    ensures IsFree(b) ==> Infer(a, b) == Ok(a)
    ensures !IsFree(b) ==> Infer(a, b) == Ok(b)
  {
  }

  /** Applied types with different numbers of arguments unify to Unknown. */
  lemma InferAppliedArity(a: Type, b: Type)
    requires IsApplied(a) && IsApplied(b) && |a.kind.args| != |b.kind.args|
    ensures Infer(a, b) == Ok(UnknownType())
  {
  }

  /** Primitives unify only within one primitive kind, and keep that kind. */
  lemma InferPrim(a: Type, b: Type)
    requires IsPrim(a) && IsPrim(b)
    ensures a.kind.primKind != b.kind.primKind ==> Infer(a, b) == Ok(UnknownType())
    ensures a.kind.primKind == b.kind.primKind && Infer(a, b).Ok? ==>
      Infer(a, b).value.kind.OfPrim? && Infer(a, b).value.kind.primKind == a.kind.primKind
  {
  }

  /** Two poisons unify to the Ignorable poison. */
  lemma InferPoisoned(a: Type, b: Type)
    requires IsPoisoned(a) && IsPoisoned(b)
    ensures Infer(a, b) == Ok(Poisoned(Ignorable))
  {
  }

  /**
   * A hint or a poison against a type of another kind is never looked
   * into: the pair cannot be unified and gives Unknown. (The unit tests
   * expect `Int..?` with `Int` to give `Int`, and Unknown with `Int` to give
   * Ignorable; the code as written gives Unknown for both.)
   */
  lemma InferMixedIsUnknown(a: Type, b: Type)
    requires IsHinted(a) || IsPoisoned(a)
    requires IsPrim(b)
    ensures Infer(a, b) == Ok(UnknownType())
  {
  }

  /** Quantified types must be instantiated first: unifying two of them throws. */
  lemma InferQuantThrows(i: int, j: int)
    ensures Infer(Covered(OfQuant(i)), Covered(OfQuant(j))) == Err(IllegalArgumentException)
  {
  }

  /** A ground type unifies with itself to itself. */
  lemma {:induction false} InferSelf(t: Type)
    requires Ground(t)
    ensures Infer(t, t) == Ok(t)
    decreases t
  {
    match t.kind
    case OfRec(_) =>
    case OfPrim(kind, ty) =>
      InferSelf(ty);
      assert InferBothTypes.HaveSamePrimKind(t, t);
      assert t == Covered(OfPrim(kind, ty));
    case OfApplied(args, ty) =>
      InferSelf(ty);
      forall i | 0 <= i < |args|
        ensures Infer(args[i], args[i]) == Ok(args[i])
      {
        InferSelf(args[i]);
      }
      var rs := seq(|args|, i requires 0 <= i < |args| => Infer(args[i], args[i]));
      assert Together(args, args) == Collect(rs);
      assert Collect(rs).value == args;
      assert Cured(ty).Some?;
      assert t == Covered(OfApplied(args, ty));
  }

  /** Without quantified or unresolved parts, unification never throws. */
  lemma {:induction false} InferTotal(a: Type, b: Type)
    requires NoQuant(a) && NoQuant(b)
    ensures Infer(a, b).Ok?
    decreases a, b
  {
    if !InferBothTypes.CanBeUnified(a, b) || InferBothTypes.EitherIsFree(a, b) {
    } else if TypeBothTypes.EitherIsHinted(a, b) {
      InferTotal(TypeBothTypes.UnwrapHint(a), TypeBothTypes.UnwrapHint(b));
    } else if TypeBothTypes.EitherIsPoisoned(a, b) {
    } else {
      match a.kind
      case OfApplied(aArgs, aType) =>
        if |aArgs| == |b.kind.args| {
          InferTotal(aType, b.kind.appliedType);
          var bArgs := b.kind.args;
          forall i | 0 <= i < |aArgs|
            ensures Infer(aArgs[i], bArgs[i]).Ok?
          {
            InferTotal(aArgs[i], bArgs[i]);
          }
        }
      case OfPrim(_, aType) =>
        InferTotal(aType, b.kind.primType);
      case OfRec(_) =>
      case OfPoison(_) =>
    }
  }

  /** A list of copies of one ground type unifies to that type. */
  lemma {:induction false} AllSame(t: Type, n: nat)
    requires Ground(t) && n >= 2
    ensures All(seq(n, _ => t)) == Ok(t)
    decreases n
  {
    var ts := seq(n, _ => t);
    InferSelf(t);
    if n > 2 {
      assert ts[..n - 1] == seq(n - 1, _ => t);
      AllSame(t, n - 1);
    }
  }

  /** `assuming` with nothing to match is Unknown, and a type assumed equal to itself is itself. */
  lemma AssumingFacts(a: Type, b: Type)
    ensures Assuming(a, b, []) == UnknownType()
    ensures Assuming(a, a, [a]) == a
  {
    assert a in [a];
  }

  function Table(): Type { PreludePrim("Table", TABLE) }
  function IntType(): Type { PreludePrim("Int", INT) }
  function StrType(): Type { PreludePrim("Str", STR) }
  function Applied(t: Type, args: seq<Type>): Type { Covered(OfApplied(args, t)) }

  /** The outcomes the unit tests assert on plain types, by name. */
  lemma UnitTestOutcomes()
    ensures Named(Infer(IntType(), Table()).value) == "Unknown"
    ensures Named(Infer(IntType(), IntType()).value) == "Int"
    ensures Infer(Free(0), IntType()) == Ok(IntType())
    ensures Infer(IntType(), Free(0)) == Ok(IntType())
    ensures Infer(Free(1), Free(0)) == Ok(Free(1))
  {
  }

  /** The outcomes the unit tests assert on applied table types. */
  lemma TableTestOutcomes()
    ensures Infer(Applied(Table(), [Free(0)]), Applied(Table(), [Free(0), Free(1)])) == Ok(UnknownType())
    ensures Infer(Applied(Table(), [Free(0), Free(1)]), Applied(Table(), [StrType(), IntType()]))
      == Ok(Applied(Table(), [StrType(), IntType()]))
  {
    InferSelf(Table());
    assert Together([Free(0), Free(1)], [StrType(), IntType()]) == Ok([StrType(), IntType()]) by {
      var r := Together([Free(0), Free(1)], [StrType(), IntType()]);
      assert Infer(Free(0), StrType()) == Ok(StrType());
      assert Infer(Free(1), IntType()) == Ok(IntType());
      assert r.Ok? && |r.value| == 2;
      assert r.value[0] == StrType() && r.value[1] == IntType();
      assert r.value == [StrType(), IntType()];
    }
  }
}
