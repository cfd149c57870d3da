/**
 * The constant reuse pass (`opt/passes/ConstReuse.kt`): of the terms set
 * to the same constant only the first is kept, its other definitions are
 * removed and their uses are redirected to the first term.
 */
module ConstReusing {
  import opened Wrappers
  import opened Ir
  import opened FunStats
  import opened Canvases
  import TermChanges
  import TermReplacing

  /**
   * `firstTermOf`: the last term `termsUsing` lists for the constant, the
   * one set to it first (`FunStats.FirstConstTermIsLast`), if any.
   */
  function FirstTermOf(c: IrConst, data: FunData): (r: Option<Term>)
    ensures r.None? <==> |TermsUsing(data, c)| == 0
    ensures r.Some? ==> r.value in TermsUsing(data, c)
  {
    var ts := TermsUsing(data, c);
    if |ts| == 0 then None else Some(ts[|ts| - 1])
  }

  /** `isFirstDef`: the term is the first one set to the constant. */
  predicate IsFirstDef(term: Term, c: IrConst, data: FunData)
  {
    FirstTermOf(c, data) == Some(term)
  }

  /** The definition of a term, when it is a constant. */
  predicate HasConstDef(data: FunData, t: Term)
  {
    DefOf(data, t).Some? && DefOf(data, t).value.Const?
  }

  /** `constOperands`: the operands of an operation that a constant defines, in order. */
  function ConstOperands(op: Op, data: FunData): (r: seq<Term>)
    ensures forall t :: t in r <==> t in Operands(op) && HasConstDef(data, t)
  {
    Filter(Operands(op), data)
  }

  function Filter(ts: seq<Term>, data: FunData): (r: seq<Term>)
    ensures forall t :: t in r <==> t in ts && HasConstDef(data, t)
  {
    if |ts| == 0 then []
    else (if HasConstDef(data, ts[0]) then [ts[0]] else []) + Filter(ts[1..], data)
  }

  /** The term is defined by a constant definition that is not the first of its constant. */
  predicate IsLaterDef(data: FunData, t: Term)
  {
    HasConstDef(data, t) && !IsFirstDef(DefOf(data, t).value.to, DefOf(data, t).value.constant, data)
  }

  /** The terms among `ts` that a later definition defines, in order. */
  function LaterTerms(ts: seq<Term>, data: FunData): (r: seq<Term>)
    ensures forall t :: t in r <==> t in ts && IsLaterDef(data, t)
  {
    if |ts| == 0 then []
    else (if IsLaterDef(data, ts[0]) then [ts[0]] else []) + LaterTerms(ts[1..], data)
  }

  /**
   * `constDefs`: the definitions of those operands that are not the first
   * definition of their constant.
   */
  function LaterDefs(ts: seq<Term>, data: FunData): (r: seq<Op>)
    requires forall t :: t in ts ==> HasConstDef(data, t)
    ensures |r| == |LaterTerms(ts, data)|
    ensures forall i :: 0 <= i < |r| ==> DefOf(data, LaterTerms(ts, data)[i]) == Some(r[i])
    ensures forall d :: d in r ==> d.Const? && !IsFirstDef(d.to, d.constant, data)
  {
    if |ts| == 0 then []
    else
      assert ts[0] in ts && HasConstDef(data, ts[0]);
      var d := DefOf(data, ts[0]).value;
      var keep := !IsFirstDef(d.to, d.constant, data);
      var rest := LaterDefs(ts[1..], data);
      PrependLater(data, ts[0], d, keep, rest, LaterTerms(ts[1..], data));
      (if keep then [d] else []) + rest
  }

  /** Keeping or dropping a definition together with its term keeps definitions and terms aligned. */
  lemma PrependLater(data: FunData, t: Term, d: Op, keep: bool, rest: seq<Op>, later: seq<Term>)
    requires DefOf(data, t) == Some(d)
    requires |rest| == |later| && forall i :: 0 <= i < |rest| ==> DefOf(data, later[i]) == Some(rest[i])
    ensures var r := (if keep then [d] else []) + rest;
      var l := (if keep then [t] else []) + later;
      |r| == |l| && forall i :: 0 <= i < |r| ==> DefOf(data, l[i]) == Some(r[i])
  {
  }

  /** `mapNotNull { it?.term() }`: the terms of the definitions. */
  function TermsOf(defs: seq<Op>): (r: seq<Term>)
    ensures |r| == |defs| && forall i :: 0 <= i < |defs| ==> r[i] == OpTerm(defs[i])
  {
    if |defs| == 0 then [] else [OpTerm(defs[0])] + TermsOf(defs[1..])
  }

  /** `replacingTerms.filterNotNull()`: the first terms of the definitions' constants that exist. */
  function FirstTerms(defs: seq<Op>, data: FunData): (r: seq<Term>)
    requires forall d :: d in defs ==> d.Const?
    ensures |r| <= |defs|
    ensures |r| == |defs| <==> forall d :: d in defs ==> FirstTermOf(d.constant, data).Some?
    ensures (forall d :: d in defs ==> FirstTermOf(d.constant, data).Some?) ==>
      forall i :: 0 <= i < |defs| ==> r[i] == FirstTermOf(defs[i].constant, data).value
  {
    if |defs| == 0 then []
    else
      var f := FirstTermOf(defs[0].constant, data);
      (if f.Some? then [f.value] else []) + FirstTerms(defs[1..], data)
  }

  /** `removeDefChanges`: the term no longer holds the constant. */
  function RemoveDefChanges(op: Op): seq<Change>
    requires op.Const?
  {
    [Unconst(op.constant, op.to)]
  }

  /** `removeDefIfNeeded`: the first definition of a constant is kept, any later one removed. */
  function RemoveDefIfNeeded(op: Op, data: FunData): Transform
    requires op.Const?
  {
    if IsFirstDef(op.to, op.constant, data) then Retain(op) else Remove(op, RemoveDefChanges(op))
  }

  /**
   * `changeTerms`: the operands defined by a later definition replaced by
   * the constant's first term, their old terms no longer used by the
   * operation. A later definition whose constant has no term recorded
   * leaves fewer new terms than old ones, which `TermReplacer.replace`
   * rejects. The replacement is `replace` as written; `AsWrittenAgrees`
   * shows that here it gives the documented result.
   */
  function ChangeTerms(op: Op, data: FunData, constOperands: seq<Term>): Result<Transform>
    requires forall t :: t in constOperands ==> HasConstDef(data, t)
  {
    var constDefs := LaterDefs(constOperands, data);
    if |constDefs| == 0 then Ok(Retain(op))
    else
      var oldTerms := TermsOf(constDefs);
      var newTerms := FirstTerms(constDefs, data);
      var newOp :- TermReplacing.Replace(op, oldTerms, newTerms);
      Ok(Replace(newOp, [OfTerm(TermChanges.Unuse(oldTerms, op))]))
  }

  /** `changeTermsIfPossible`: nothing to do without an operand defined by a constant. */
  function ChangeTermsIfPossible(op: Op, data: FunData): Result<Transform>
  {
    var constOperands := ConstOperands(op, data);
    if |constOperands| == 0 then Ok(Retain(op)) else ChangeTerms(op, data, constOperands)
  }

  /** The callback of `apply`. */
  function Callback(data: FunData, op: Op): Result<Transform>
  {
    if op.Const? then Ok(RemoveDefIfNeeded(op, data)) else ChangeTermsIfPossible(op, data)
  }

  /** `apply`: the callback over every operation of the canvas. */
  function Apply(c: Canvas): Result<Canvas>
  {
    EachOp(c, Callback)
  }

  /**
   * A constant definition is kept exactly when its term is the first one
   * set to its constant; any other is removed, and its term no longer
   * holds the constant.
   */
  lemma ConstDefSpec(data: FunData, op: Op)
    requires op.Const?
    ensures Callback(data, op).Ok?
    ensures Callback(data, op).value.Retain? <==> FirstTermOf(op.constant, data) == Some(op.to)
    ensures Callback(data, op).value.Retain? ==> Callback(data, op).value.retained == op
    ensures Callback(data, op).value.Replace? ==>
      Callback(data, op).value == Replace(Dummy(op.to), [Unconst(op.constant, op.to)])
  {
  }

  /** An operation none of whose operands a constant defines is kept as it is. */
  lemma NoConstOperandsRetained(data: FunData, op: Op)
    requires !op.Const?
    requires forall t :: t in Operands(op) ==> !HasConstDef(data, t)
    ensures Callback(data, op) == Ok(Retain(op))
  {
  }

  /**
   * The statistics are consistent for an operation when a constant
   * definition found for one of its operands defines that very term, and
   * its constant has a recorded first term.
   */
  predicate Consistent(data: FunData, op: Op)
  {
    forall t :: t in Operands(op) && HasConstDef(data, t) ==>
      OpTerm(DefOf(data, t).value) == t && FirstTermOf(DefOf(data, t).value.constant, data).Some?
  }

  /**
   * With consistent statistics, an operand defined by a later definition
   * is replaced by the first term of its constant, and the replaced terms
   * are no longer used by the operation.
   */
  lemma LaterOperandRedirected(data: FunData, op: Op, k: int)
    requires !op.Const? && Consistent(data, op)
    requires 0 <= k < |Operands(op)| && IsLaterDef(data, Operands(op)[k])
    ensures Callback(data, op).Ok? && Callback(data, op).value.Replace?
    ensures OpAllTerms(Callback(data, op).value.newOp)[k + 1] ==
      FirstTermOf(DefOf(data, Operands(op)[k]).value.constant, data).value
    ensures Callback(data, op).value.changes ==
      [OfTerm(TermChanges.Unuse(TermsOf(LaterDefs(ConstOperands(op, data), data)), op))]
  {
    var i := LaterOperandIndex(data, op, Operands(op)[k]);
    LaterDefsConsistent(data, op);
    CallbackUnfolded(data, op);
    AsWrittenAgrees(data, op);
    RedirectedTerm(data, op, k);
  }

  /** With consistent statistics, every other operand stays as it is. */
  lemma OtherOperandKept(data: FunData, op: Op, k: int)
    requires !op.Const? && Consistent(data, op)
    requires 0 <= k < |Operands(op)| && !IsLaterDef(data, Operands(op)[k])
    ensures Callback(data, op).Ok?
    ensures Callback(data, op).value.Retain? ==> Callback(data, op).value.retained == op
    ensures Callback(data, op).value.Replace? ==> OpAllTerms(Callback(data, op).value.newOp)[k + 1] == Operands(op)[k]
  {
    LaterDefsConsistent(data, op);
    CallbackUnfolded(data, op);
    AsWrittenAgrees(data, op);
    if |LaterDefs(ConstOperands(op, data), data)| > 0 {
      KeptTerm(data, op, k);
    }
  }

  /** The intended replacement puts the first term at the position of an operand with a later definition. */
  lemma RedirectedTerm(data: FunData, op: Op, k: int)
    requires !op.Const? && Consistent(data, op)
    requires 0 <= k < |Operands(op)| && IsLaterDef(data, Operands(op)[k])
    ensures
      var defs := LaterDefs(ConstOperands(op, data), data);
      var r := TermReplacing.ReplaceIntended(op, TermsOf(defs), FirstTerms(defs, data));
      && r.Ok?
      && OpAllTerms(r.value)[k + 1] == FirstTermOf(DefOf(data, Operands(op)[k]).value.constant, data).value
  {
    var t := Operands(op)[k];
    var defs := LaterDefs(ConstOperands(op, data), data);
    var oldTerms := TermsOf(defs);
    var newTerms := FirstTerms(defs, data);
    LaterDefsConsistent(data, op);
    OperandPosition(op, k);
    var i := LaterOperandIndex(data, op, t);
    PairedAt(op, oldTerms, newTerms, k + 1, i);
  }

  /** `ReplaceIntendedPairs` at one position and one pair. */
  lemma PairedAt(op: Op, oldTerms: seq<Term>, newTerms: seq<Term>, k: int, i: int)
    requires TermReplacing.Functional(oldTerms, newTerms)
    requires 0 <= k < |OpAllTerms(op)| && 0 <= i < |oldTerms| && oldTerms[i] == OpAllTerms(op)[k]
    ensures TermReplacing.ReplaceIntended(op, oldTerms, newTerms).Ok?
    ensures OpAllTerms(TermReplacing.ReplaceIntended(op, oldTerms, newTerms).value)[k] == newTerms[i]
  {
    TermReplacing.ReplaceIntendedPairs(op, oldTerms, newTerms, k);
  }

  /** The intended replacement leaves any other operand where it is. */
  lemma KeptTerm(data: FunData, op: Op, k: int)
    requires !op.Const? && Consistent(data, op)
    requires 0 <= k < |Operands(op)| && !IsLaterDef(data, Operands(op)[k])
    requires |LaterDefs(ConstOperands(op, data), data)| > 0
    ensures
      var defs := LaterDefs(ConstOperands(op, data), data);
      var r := TermReplacing.ReplaceIntended(op, TermsOf(defs), FirstTerms(defs, data));
      && r.Ok?
      && OpAllTerms(r.value)[k + 1] == Operands(op)[k]
  {
    var defs := LaterDefs(ConstOperands(op, data), data);
    LaterDefsConsistent(data, op);
    OperandPosition(op, k);
    TermReplacing.ReplaceIntendedPairs(op, TermsOf(defs), FirstTerms(defs, data), k + 1);
  }

  /** The k-th operand is the term after the operation's own. */
  lemma OperandPosition(op: Op, k: int)
    requires 0 <= k < |Operands(op)|
    ensures k + 1 < |OpAllTerms(op)| && OpAllTerms(op)[k + 1] == Operands(op)[k]
  {
  }

  /** A consistent operand with a later definition is among the terms to replace. */
  lemma LaterOperandIndex(data: FunData, op: Op, t: Term) returns (i: int)
    requires t in Operands(op) && IsLaterDef(data, t)
    requires OpTerm(DefOf(data, t).value) == t
    ensures 0 <= i < |LaterDefs(ConstOperands(op, data), data)|
    ensures LaterDefs(ConstOperands(op, data), data)[i] == DefOf(data, t).value
    ensures TermsOf(LaterDefs(ConstOperands(op, data), data))[i] == t
  {
    var later := LaterTerms(ConstOperands(op, data), data);
    assert t in later;
    i :| 0 <= i < |later| && later[i] == t;
  }

  /** The callback on an operation other than a constant, with its branches spelled out. */
  lemma CallbackUnfolded(data: FunData, op: Op)
    requires !op.Const?
    ensures
      var defs := LaterDefs(ConstOperands(op, data), data);
      var oldTerms := TermsOf(defs);
      var newTerms := FirstTerms(defs, data);
      Callback(data, op) ==
        if |defs| == 0 then Ok(Retain(op))
        else if |oldTerms| != |newTerms| then Err(IllegalArgumentException)
        else Ok(Replace(TermReplacing.Replace(op, oldTerms, newTerms).value, [OfTerm(TermChanges.Unuse(oldTerms, op))]))
  {
  }

  /**
   * Under the same consistency, the terms to replace are operands, each
   * has a new term, and equal terms to replace have equal new terms.
   */
  lemma LaterDefsConsistent(data: FunData, op: Op)
    requires !op.Const? && Consistent(data, op)
    ensures
      var defs := LaterDefs(ConstOperands(op, data), data);
      var oldTerms := TermsOf(defs);
      var newTerms := FirstTerms(defs, data);
      && oldTerms == LaterTerms(ConstOperands(op, data), data)
      && TermReplacing.Functional(oldTerms, newTerms)
      && (forall i :: 0 <= i < |defs| ==> newTerms[i] == FirstTermOf(defs[i].constant, data).value)
  {
    var defs := LaterDefs(ConstOperands(op, data), data);
    var later := LaterTerms(ConstOperands(op, data), data);
    forall i | 0 <= i < |defs|
      ensures FirstTermOf(defs[i].constant, data).Some? && TermsOf(defs)[i] == later[i]
    {
      assert later[i] in later;
    }
    assert TermsOf(defs) == later;
  }

  /**
   * A later definition among the operands whose constant has no term
   * recorded makes the pass throw `IllegalArgumentException`, and only
   * such a definition does.
   */
  lemma MissingFirstTermThrows(data: FunData, op: Op)
    requires !op.Const?
    ensures Callback(data, op).Err? <==>
      exists d :: d in LaterDefs(ConstOperands(op, data), data) && FirstTermOf(d.constant, data).None?
    ensures Callback(data, op).Err? ==> Callback(data, op).error == IllegalArgumentException
  {
  }

  /** The terms the pass replaces are operands of the operation, so the operation mentions them all. */
  lemma ReplacedMentioned(data: FunData, op: Op)
    requires forall t :: t in Operands(op) && HasConstDef(data, t) ==> OpTerm(DefOf(data, t).value) == t
    ensures forall t :: t in TermsOf(LaterDefs(ConstOperands(op, data), data)) ==> t in OpAllTerms(op)
  {
    var defs := LaterDefs(ConstOperands(op, data), data);
    var oldTerms := TermsOf(defs);
    var later := LaterTerms(ConstOperands(op, data), data);
    forall t | t in oldTerms
      ensures t in OpAllTerms(op)
    {
      var i :| 0 <= i < |oldTerms| && oldTerms[i] == t;
      assert later[i] in later;
      assert t in Operands(op) && !op.Dummy?;
      OpShape(op);
    }
  }

  /**
   * In the pass the replacement as written agrees with the intended one
   * whenever each constant definition found for an operand defines that
   * operand, since the terms it replaces are then operands of the operation.
   */
  lemma AsWrittenAgrees(data: FunData, op: Op)
    requires !op.Const?
    requires forall t :: t in Operands(op) && HasConstDef(data, t) ==> OpTerm(DefOf(data, t).value) == t
    ensures
      var defs := LaterDefs(ConstOperands(op, data), data);
      TermReplacing.Replace(op, TermsOf(defs), FirstTerms(defs, data))
        == TermReplacing.ReplaceIntended(op, TermsOf(defs), FirstTerms(defs, data))
  {
    var defs := LaterDefs(ConstOperands(op, data), data);
    if |TermsOf(defs)| == |FirstTerms(defs, data)| {
      assert forall t :: t in TermsOf(defs) ==> t in OpAllTerms(op) by {
        ReplacedMentioned(data, op);
      }
      TermReplacing.ReplaceAgreesWhenMentioned(op, TermsOf(defs), FirstTerms(defs, data));
    }
  }
}
