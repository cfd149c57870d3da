/**
 * The dead term elimination pass (`opt/passes/DeadTermElim.kt`): the
 * definition of a term nothing uses is removed.
 */
module DeadTermEliminating {
  import opened Wrappers
  import opened Ir
  import opened FunStats
  import opened Canvases
  import TermChanges
  import TermStats

  /** `unconstChange`: a constant definition also stops holding its constant. */
  function UnconstChange(op: Op): (r: seq<Change>)
    ensures op.Const? ==> r == [Unconst(op.constant, op.to)]
    ensures !op.Const? ==> r == []
  {
    if op.Const? then [Unconst(op.constant, op.to)] else []
  }

  /** `removeTerm`: the operation goes, and its term is left without a definition. */
  function RemoveTerm(op: Op): Transform
  {
    Remove(op, [OfTerm(TermChanges.Def(OpTerm(op), None))] + UnconstChange(op))
  }

  /** The callback of `apply`: a definition whose term has no use is removed. */
  function Callback(data: FunData, op: Op): Result<Transform>
  {
    if OpIsDefinition(op) && |UsesOf(data, OpTerm(op))| == 0 then Ok(RemoveTerm(op)) else Ok(Retain(op))
  }

  /** `apply`: the callback over every operation of the canvas. */
  function Apply(c: Canvas): Result<Canvas>
  {
    EachOp(c, Callback)
  }

  /**
   * An operation is removed exactly when it defines a term nothing uses;
   * in particular `Print`, `Ret` and `TableSet` are never removed.
   */
  lemma RemovedIffDead(data: FunData, op: Op)
    ensures Callback(data, op).Ok?
    ensures Callback(data, op).value.Replace? <==> OpIsDefinition(op) && |UsesOf(data, OpTerm(op))| == 0
    ensures Callback(data, op).value.Retain? ==> Callback(data, op).value.retained == op
    ensures op.Print? || op.Ret? || (op.OfTac? && op.tac.TableSet?) ==> Callback(data, op) == Ok(Retain(op))
    ensures Callback(data, op).value.Replace? ==> Callback(data, op).value.newOp == Dummy(OpTerm(op))
  {
  }

  /** The constant change of a removal takes effect first, then the definition change. */
  lemma RemovalSteps(data: FunData, op: Op)
    ensures ApplyChanges(TransformChanges(RemoveTerm(op)), data) ==
      ApplyChange(OfTerm(TermChanges.Def(OpTerm(op), None)), ApplyChanges(UnconstChange(op), data))
    ensures op.Const? ==> ApplyChanges(UnconstChange(op), data) == ApplyChange(Unconst(op.constant, op.to), data)
    ensures !op.Const? ==> ApplyChanges(UnconstChange(op), data) == data
  {
    var def := OfTerm(TermChanges.Def(OpTerm(op), None));
    var changes := [def] + UnconstChange(op);
    assert changes[1..] == UnconstChange(op);
    if op.Const? {
      assert UnconstChange(op)[1..] == [];
    }
  }

  /**
   * The changes of a removal leave the term without a definition but with
   * its uses, and leave every other term as it was.
   */
  lemma RemovalClearsDef(data: FunData, op: Op, id: int)
    ensures
      var after := ApplyChanges(TransformChanges(RemoveTerm(op)), data);
      && TermStats.StatsOf(after.termData, OpTerm(op).id) == TermChanges.Stats(None, UsesOf(data, OpTerm(op)))
      && (id != OpTerm(op).id ==> TermStats.StatsOf(after.termData, id) == TermStats.StatsOf(data.termData, id))
  {
    var def := OfTerm(TermChanges.Def(OpTerm(op), None));
    var mid := ApplyChanges(UnconstChange(op), data);
    RemovalSteps(data, op);
    if op.Const? {
      ApplyChangeTermData(Unconst(op.constant, op.to), data);
    }
    ApplyChangeTermData(def, mid);
    assert TermChanges.ChangeIds(def.termChange) == {OpTerm(op).id};
  }

  /**
   * A removed constant definition no longer holds its constant; removing any other operation leaves the constants alone.
   */
  lemma RemovalUnconsts(data: FunData, op: Op)
    ensures
      var after := ApplyChanges(TransformChanges(RemoveTerm(op)), data);
      && (op.Const? ==>
            TermsUsing(after, op.constant) == Minus(TermsUsing(data, op.constant), op.to))
      && (!op.Const? ==> after.constDefMap == data.constDefMap)
  {
    var def := OfTerm(TermChanges.Def(OpTerm(op), None));
    var mid := ApplyChanges(UnconstChange(op), data);
    RemovalSteps(data, op);
    if op.Const? {
      ApplyChangeTermsUsing(Unconst(op.constant, op.to), data, op.constant);
      ApplyChangeTermsUsing(def, mid, op.constant);
    }
  }
}
