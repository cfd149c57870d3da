/**
 * `opt/help/TermReplacer.kt`: a copy of an operation with some of its terms
 * replaced by others, the two lists meant to correspond one to one.
 */
module TermReplacing {
  import opened Wrappers
  import opened Ir
  import Types
  import Composing

  /** `toMap` on a list of pairs: every first component is a key (the last pair with a key wins: `PairsToMapLast`). */
  function PairsToMap(ps: seq<(Term, Term)>): (r: map<Term, Term>)
    ensures forall i :: 0 <= i < |ps| ==> ps[i].0 in r
    ensures forall k :: k in r ==> exists i :: 0 <= i < |ps| && ps[i].0 == k
  {
    if |ps| == 0 then map[]
    else
      var last := ps[|ps| - 1];
      var pre := ps[..|ps| - 1];
      var m := PairsToMap(pre);
      var r := m[last.0 := last.1];
      assert forall i :: 0 <= i < |ps| ==> ps[i].0 in r by {
        forall i | 0 <= i < |ps| ensures ps[i].0 in r {
          if i < |pre| {
            assert pre[i].0 in m;
          }
        }
      }
      r
  }

  /** `filter { it in op.allTerms() }`: the terms of `ts` the operation mentions, in their order. */
  function Mentioned(ts: seq<Term>, op: Op): (r: seq<Term>)
    ensures forall t :: t in r <==> t in ts && t in OpAllTerms(op)
    ensures |r| <= |ts|
  {
    if |ts| == 0 then []
    else (if ts[0] in OpAllTerms(op) then [ts[0]] else []) + Mentioned(ts[1..], op)
  }

  /**
   * `replacementMap` as written: the terms to replace are filtered first
   * and only then paired with the new terms, so a term the operation does
   * not mention shifts the pairing of every term after it.
   */
  function ReplacementMap(op: Op, replacand: seq<Term>, newTerms: seq<Term>): map<Term, Term>
  {
    PairsToMap(Composing.Zip(Mentioned(replacand, op), newTerms))
  }

  /** The pairs of equal positions whose first term the operation mentions, in order. */
  function MentionedPairs(op: Op, replacand: seq<Term>, newTerms: seq<Term>): (r: seq<(Term, Term)>)
    requires |replacand| == |newTerms|
    ensures forall p :: p in r <==> exists i :: 0 <= i < |replacand| && p == (replacand[i], newTerms[i]) && replacand[i] in OpAllTerms(op)
  {
    if |replacand| == 0 then []
    else
      var rest := MentionedPairs(op, replacand[1..], newTerms[1..]);
      assert forall i :: 0 <= i < |replacand| - 1 ==> replacand[1..][i] == replacand[i + 1] && newTerms[1..][i] == newTerms[i + 1];
      (if replacand[0] in OpAllTerms(op) then [(replacand[0], newTerms[0])] else []) + rest
  }

  /**
   * The map the documentation of `replace` describes: each term to replace
   * that the operation mentions is paired with the new term at its own
   * position.
   */
  function IntendedMap(op: Op, replacand: seq<Term>, newTerms: seq<Term>): map<Term, Term>
    requires |replacand| == |newTerms|
  {
    PairsToMap(MentionedPairs(op, replacand, newTerms))
  }

  /** `getOrSame`: the replacement of a term, or the term itself. */
  function GetOrSame(m: map<Term, Term>, key: Term): (r: Term)
    ensures key !in m ==> r == key
    ensures key in m ==> r == m[key]
  {
    if key in m then m[key] else key
  }

  /** Every term of a list put through the map. */
  function MapTerms(m: map<Term, Term>, ts: seq<Term>): (r: seq<Term>)
    ensures |r| == |ts| && forall i :: 0 <= i < |ts| ==> r[i] == GetOrSame(m, ts[i])
  {
    if |ts| == 0 then [] else [GetOrSame(m, ts[0])] + MapTerms(m, ts[1..])
  }

  /** The same operation apart from its terms: the same variant, kind, constant and line. */
  predicate SameSkeleton(a: Op, b: Op)
  {
    match a
    case Ret(_, info) => b.Ret? && b.info == info
    case Print(_, info) => b.Print? && b.info == info
    case Const(_, c, info) => b.Const? && b.constant == c && b.info == info
    case Dummy(_) => b == a
    case OfTac(t) =>
      && b.OfTac?
      && match t
         case Unary(k, _, _, info) => b.tac.Unary? && b.tac.unary == k && b.tac.info == info
         case Binary(k, _, _, _, info) => b.tac.Binary? && b.tac.binary == k && b.tac.info == info
         case TableSet(_, _, _, info) => b.tac.TableSet? && b.tac.info == info
  }

  /** Every term of the operation put through `m`; a dummy is returned as it is. */
  function ReplaceWith(op: Op, m: map<Term, Term>): (r: Op)
    ensures SameSkeleton(op, r)
    ensures OpAllTerms(r) == MapTerms(m, OpAllTerms(op))
    ensures !op.Dummy? ==> OpTerm(r) == GetOrSame(m, OpTerm(op))
    ensures op.Dummy? ==> r == op
  {
    match op
    case Const(to, c, info) => Const(GetOrSame(m, to), c, info)
    case Ret(t, info) => Ret(GetOrSame(m, t), info)
    case Print(t, info) => Print(GetOrSame(m, t), info)
    case Dummy(_) => op
    case OfTac(tac) =>
      match tac
      case Unary(k, to, t, info) => OfTac(Unary(k, GetOrSame(m, to), GetOrSame(m, t), info))
      case Binary(k, to, l, rt, info) => OfTac(Binary(k, GetOrSame(m, to), GetOrSame(m, l), GetOrSame(m, rt), info))
      case TableSet(to, key, value, info) => OfTac(TableSet(GetOrSame(m, to), GetOrSame(m, key), GetOrSame(m, value), info))
  }

  /**
   * `replace` as written: lists of different sizes throw
   * `IllegalArgumentException`; otherwise every term of the operation goes
   * through the replacement map as written.
   */
  function Replace(op: Op, toBeReplaced: seq<Term>, newTerms: seq<Term>): (r: Result<Op>)
    ensures |toBeReplaced| != |newTerms| <==> r == Err(IllegalArgumentException)
    ensures r.Ok? ==> SameSkeleton(op, r.value)
    ensures r.Ok? ==> OpAllTerms(r.value) == MapTerms(ReplacementMap(op, toBeReplaced, newTerms), OpAllTerms(op))
    ensures r.Ok? && op.Dummy? ==> r.value == op
  {
    if |toBeReplaced| != |newTerms| then Err(IllegalArgumentException)
    else Ok(ReplaceWith(op, ReplacementMap(op, toBeReplaced, newTerms)))
  }

  /**
   * `replace` as its documentation describes it: the same, with each term
   * to replace paired with the new term at its own position.
   */
  function ReplaceIntended(op: Op, toBeReplaced: seq<Term>, newTerms: seq<Term>): (r: Result<Op>)
    ensures |toBeReplaced| != |newTerms| <==> r == Err(IllegalArgumentException)
    ensures r.Ok? ==> SameSkeleton(op, r.value) && |OpAllTerms(r.value)| == |OpAllTerms(op)|
  {
    if |toBeReplaced| != |newTerms| then Err(IllegalArgumentException)
    else Ok(ReplaceWith(op, IntendedMap(op, toBeReplaced, newTerms)))
  }

  /** Lists of the same size in which no term to replace is paired with two different new terms. */
  predicate Functional(toBeReplaced: seq<Term>, newTerms: seq<Term>)
  {
    && |toBeReplaced| == |newTerms|
    && forall i, j :: 0 <= i < |toBeReplaced| && 0 <= j < |toBeReplaced| && toBeReplaced[i] == toBeReplaced[j] ==>
         newTerms[i] == newTerms[j]
  }

  /**
   * The documented promise, proved of the intended version: when no term
   * to replace is paired with two different new terms, each term of the
   * operation equal to the i-th of them becomes the i-th new term, and a
   * term not among them stays.
   */
  lemma ReplaceIntendedPairs(op: Op, toBeReplaced: seq<Term>, newTerms: seq<Term>, k: int)
    requires Functional(toBeReplaced, newTerms)
    requires 0 <= k < |OpAllTerms(op)|
    ensures ReplaceIntended(op, toBeReplaced, newTerms).Ok?
    ensures forall i :: 0 <= i < |toBeReplaced| && toBeReplaced[i] == OpAllTerms(op)[k] ==>
      OpAllTerms(ReplaceIntended(op, toBeReplaced, newTerms).value)[k] == newTerms[i]
    ensures OpAllTerms(op)[k] !in toBeReplaced ==>
      OpAllTerms(ReplaceIntended(op, toBeReplaced, newTerms).value)[k] == OpAllTerms(op)[k]
  {
    var m := IntendedMap(op, toBeReplaced, newTerms);
    var ps := MentionedPairs(op, toBeReplaced, newTerms);
    var t := OpAllTerms(op)[k];
    forall i | 0 <= i < |toBeReplaced| && toBeReplaced[i] == t
      ensures t in m && m[t] == newTerms[i]
    {
      assert (toBeReplaced[i], newTerms[i]) in ps;
      PairsToMapValue(ps, t);
    }
    if t in m {
      PairsToMapValue(ps, t);
    }
  }

  /** A key that no later pair repeats maps to its own pair's value. */
  lemma {:induction false} PairsToMapLast(ps: seq<(Term, Term)>, i: int)
    requires 0 <= i < |ps|
    requires forall j :: i < j < |ps| ==> ps[j].0 != ps[i].0
    ensures PairsToMap(ps)[ps[i].0] == ps[i].1
    decreases |ps|
  {
    var pre := ps[..|ps| - 1];
    if i < |pre| {
      assert ps[|ps| - 1].0 != ps[i].0;
      assert forall j :: i < j < |pre| ==> pre[j].0 != pre[i].0;
      PairsToMapLast(pre, i);
    }
  }

  /** Every value of the map comes with its key from one of the pairs. */
  lemma {:induction false} PairsToMapValue(ps: seq<(Term, Term)>, k: Term)
    requires k in PairsToMap(ps)
    ensures (k, PairsToMap(ps)[k]) in ps
  {
    var init := ps[..|ps| - 1];
    var last := ps[|ps| - 1];
    if k != last.0 {
      PairsToMapValue(init, k);
      assert (k, PairsToMap(ps)[k]) in init;
    }
  }

  /**
   * When the operation mentions every term to replace, nothing is filtered
   * out and the replacement as written is the intended one. This is the
   * case for every call the passes make.
   */
  lemma ReplaceAgreesWhenMentioned(op: Op, toBeReplaced: seq<Term>, newTerms: seq<Term>)
    requires |toBeReplaced| == |newTerms|
    requires forall t :: t in toBeReplaced ==> t in OpAllTerms(op)
    ensures Replace(op, toBeReplaced, newTerms) == ReplaceIntended(op, toBeReplaced, newTerms)
  {
    MentionedAll(toBeReplaced, op);
    ZipIsMentionedPairs(op, toBeReplaced, newTerms);
  }

  lemma {:induction false} MentionedAll(ts: seq<Term>, op: Op)
    requires forall t :: t in ts ==> t in OpAllTerms(op)
    ensures Mentioned(ts, op) == ts
  {
    if |ts| > 0 {
      assert ts[0] in ts;
      MentionedAll(ts[1..], op);
      assert [ts[0]] + ts[1..] == ts;
    }
  }

  lemma {:induction false} ZipIsMentionedPairs(op: Op, a: seq<Term>, b: seq<Term>)
    requires |a| == |b|
    requires forall t :: t in a ==> t in OpAllTerms(op)
    ensures Composing.Zip(a, b) == MentionedPairs(op, a, b)
  {
    if |a| > 0 {
      assert a[0] in a;
      assert forall t :: t in a[1..] ==> t in a;
      ZipIsMentionedPairs(op, a[1..], b[1..]);
    }
  }

  /** Empty lists replace nothing. */
  lemma ReplaceNothing(op: Op)
    ensures Replace(op, [], []) == Ok(op)
  {
    var m := ReplacementMap(op, [], []);
    assert m == map[];
    assert OpAllTerms(ReplaceWith(op, m)) == OpAllTerms(op);
  }

  /**
   * The pairing shift: replacing `[a, b]` with `[x, y]` in `return b`
   * returns `x`, not `y`, because `a` is filtered out before the zip.
   */
  lemma ShiftedPairing()
    ensures
      var a := Term(1, "a", Types.UnknownType());
      var b := Term(2, "b", Types.UnknownType());
      var x := Term(3, "x", Types.UnknownType());
      var y := Term(4, "y", Types.UnknownType());
      && Replace(Ret(b, IrInfo(1)), [a, b], [x, y]) == Ok(Ret(x, IrInfo(1)))
      && ReplaceIntended(Ret(b, IrInfo(1)), [a, b], [x, y]) == Ok(Ret(y, IrInfo(1)))
  {
    var a := Term(1, "a", Types.UnknownType());
    var b := Term(2, "b", Types.UnknownType());
    var x := Term(3, "x", Types.UnknownType());
    var y := Term(4, "y", Types.UnknownType());
    var op := Ret(b, IrInfo(1));
    assert a != b;
    assert Mentioned([a, b], op) == [b] by {
      assert Mentioned([a, b], op) == [] + Mentioned([b], op);
      assert Mentioned([b], op) == [b] + Mentioned([], op);
    }
    assert Composing.Zip([b], [x, y]) == [(b, x)];
    assert PairsToMap([(b, x)]) == map[b := x];
    assert MentionedPairs(op, [a, b], [x, y]) == [(b, y)] by {
      assert MentionedPairs(op, [b], [y]) == [(b, y)] + MentionedPairs(op, [], []);
    }
    assert PairsToMap([(b, y)]) == map[b := y];
  }
}
