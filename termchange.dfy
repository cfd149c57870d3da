/**
 * The statistics kept for every term (its definition and its uses) and the
 * changes that update them (`ir/data/change/TermChange.kt`).
 */
module TermChanges {
  import opened Wrappers
  import opened Ir

  /** A term's statistics: the operation defining it, if any, and the operations using it. */
  datatype Stats = Stats(def: Option<Op>, uses: seq<Op>)

  /** The statistics of a term nothing has been recorded about. */
  const DefaultStats := Stats(None, [])

  /** A change in the statistics of some terms. */
  datatype TermChange =
    | Uses(terms: seq<Term>, newUse: Op)
    | Unuse(terms: seq<Term>, oldUse: Op)
    | Def(term: Term, op: Option<Op>)

  /** `terms()`: the terms a change applies to. */
  function ChangeTerms(c: TermChange): seq<Term>
  {
    match c
    case Uses(ts, _) => ts
    case Unuse(ts, _) => ts
    case Def(t, _) => [t]
  }

  /** The ids of the terms a change applies to. */
  function ChangeIds(c: TermChange): set<int>
  {
    set t | t in ChangeTerms(c) :: t.id
  }

  /** `filter { it != oldUse }`: the uses that are not equal to `oldUse`, in their order. */
  function RemoveUse(uses: seq<Op>, oldUse: Op): (r: seq<Op>)
    ensures forall u :: u in r <==> u in uses && u != oldUse
    ensures |r| <= |uses|
  {
    if |uses| == 0 then []
    else (if uses[0] == oldUse then [] else [uses[0]]) + RemoveUse(uses[1..], oldUse)
  }

  /** Removing a use that is not there changes nothing. */
  lemma {:induction false} RemoveAbsentUse(uses: seq<Op>, oldUse: Op)
    requires oldUse !in uses
    ensures RemoveUse(uses, oldUse) == uses
  {
    if |uses| > 0 {
      assert uses[0] in uses;
      RemoveAbsentUse(uses[1..], oldUse);
      assert [uses[0]] + uses[1..] == uses;
    }
  }

  /** `applyTo`: `Uses` appends an operation, `Unuse` drops every equal one, `Def` replaces the definition. */
  function ApplyTo(c: TermChange, previous: Stats): (r: Stats)
    ensures c.Uses? ==> r.def == previous.def && r.uses == previous.uses + [c.newUse]
    ensures c.Unuse? ==> r.def == previous.def
    ensures c.Unuse? ==> forall u :: u in r.uses <==> u in previous.uses && u != c.oldUse
    ensures c.Def? ==> r == Stats(c.op, previous.uses)
  {
    match c
    case Uses(_, newUse) => Stats(previous.def, previous.uses + [newUse])
    case Unuse(_, oldUse) => Stats(previous.def, RemoveUse(previous.uses, oldUse))
    case Def(_, op) => Stats(op, previous.uses)
  }

  /** Recording a new use and then unrecording it gives back the statistics it started from. */
  lemma UnuseUndoesUses(ts: seq<Term>, op: Op, previous: Stats)
    requires op !in previous.uses
    ensures ApplyTo(Unuse(ts, op), ApplyTo(Uses(ts, op), previous)) == previous
  {
    RemoveAbsentUse(previous.uses, op);
    assert RemoveUse(previous.uses + [op], op) == RemoveUse(previous.uses, op) by {
      RemoveUseAppend(previous.uses, op);
    }
  }

  lemma {:induction false} RemoveUseAppend(uses: seq<Op>, op: Op)
    ensures RemoveUse(uses + [op], op) == RemoveUse(uses, op)
  {
    if |uses| == 0 {
      assert RemoveUse([op], op) == [] + RemoveUse([], op);
    } else {
      assert (uses + [op])[1..] == uses[1..] + [op];
      RemoveUseAppend(uses[1..], op);
    }
  }

  /**
   * `deriveFrom`: a definition sets the definition of its own term, any
   * other operation records itself as a use of its own term; either way it
   * records itself as a use of each of its operands. The changes touch no
   * term the operation does not name, and only a dummy names a term it does
   * not list among its terms.
   */
  function DeriveFrom(op: Op): (r: seq<TermChange>)
    ensures |r| == 2
    ensures r[0].Def? <==> OpIsDefinition(op)
    ensures r[0].Def? ==> r[0].term == OpTerm(op) && r[0].op == Some(op)
    ensures forall c :: c in r ==> !c.Unuse?
    ensures forall c, t :: c in r && t in ChangeTerms(c) ==> t == OpTerm(op) || t in Operands(op)
    ensures forall c :: c in r && c.Uses? ==> c.newUse == op
  {
    var receiver := OpTerm(op);
    var useChanges := Uses(Operands(op), op);
    if OpIsDefinition(op) then
      [Def(receiver, Some(op)), useChanges]
    else
      [Uses([receiver], op), useChanges]
  }

  /** A sequence read from its end. */
  function Reverse<T>(s: seq<T>): (r: seq<T>)
    ensures |r| == |s|
  {
    if |s| == 0 then [] else Reverse(s[1..]) + [s[0]]
  }

  lemma {:induction false} ReverseAppend<T>(a: seq<T>, b: seq<T>)
    ensures Reverse(a + b) == Reverse(b) + Reverse(a)
  {
    if |a| == 0 {
      assert a + b == b;
    } else {
      assert (a + b)[1..] == a[1..] + b;
      ReverseAppend(a[1..], b);
    }
  }
}
