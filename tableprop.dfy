/**
 * The table propagation pass (`opt/passes/TablePropagation.kt`): the
 * entries a function sets on a constant table are folded into the table
 * constant itself, and a `TableSet` whose entry the constant already holds
 * is removed.
 */
module TablePropagating {
  import opened Wrappers
  import opened Ir
  import opened FunStats
  import opened Canvases
  import TermChanges
  import TermStats

  /** The `TableSet` codes among some operations, in the order given. */
  function TableSets(ops: seq<Op>): (r: seq<Tac>)
    ensures forall t :: t in r ==> t.TableSet?
    ensures |r| <= |ops|
  {
    if |ops| == 0 then []
    else (if ops[0].OfTac? && ops[0].tac.TableSet? then [ops[0].tac] else []) + TableSets(ops[1..])
  }

  /**
   * `mapNotNull { data.defOf(it) }` then `filterIsInstance<Op.Const>()`
   * then `map { it.const }`: the constants defining the terms, skipping
   * terms that have no definition or a definition other than a constant.
   */
  function ConstValues(data: FunData, ts: seq<Term>): (r: seq<IrConst>)
    ensures |r| <= |ts|
  {
    if |ts| == 0 then []
    else
      var d := DefOf(data, ts[0]);
      (if d.Some? && d.value.Const? then [d.value.constant] else []) + ConstValues(data, ts[1..])
  }

  /** The keys, then the values, of some `TableSet` codes. */
  function KeysOf(sets: seq<Tac>): (r: seq<Term>)
    requires forall t :: t in sets ==> t.TableSet?
    ensures |r| == |sets| && forall i :: 0 <= i < |sets| ==> r[i] == sets[i].key
  {
    if |sets| == 0 then [] else [sets[0].key] + KeysOf(sets[1..])
  }

  function ValuesOf(sets: seq<Tac>): (r: seq<Term>)
    requires forall t :: t in sets ==> t.TableSet?
    ensures |r| == |sets| && forall i :: 0 <= i < |sets| ==> r[i] == sets[i].value
  {
    if |sets| == 0 then [] else [sets[0].value] + ValuesOf(sets[1..])
  }

  /** `zip` then `unzip`: both lists cut to the length of the shorter. */
  function ZipUnzip(keys: seq<IrConst>, vals: seq<IrConst>): (r: (seq<IrConst>, seq<IrConst>))
    ensures |r.0| == |r.1| == (if |keys| < |vals| then |keys| else |vals|)
    ensures r.0 == keys[..|r.0|] && r.1 == vals[..|r.1|]
  {
    var n := if |keys| < |vals| then |keys| else |vals|;
    (keys[..n], vals[..n])
  }

  /**
   * `keysAndVals`: the constant keys and values of the `TableSet`s using
   * the table's term, in the reverse of the order its uses are recorded in.
   */
  function KeysAndVals(op: Op, data: FunData): (r: (seq<IrConst>, seq<IrConst>))
    ensures |r.0| == |r.1|
  {
    var sets := TableSets(TermChanges.Reverse(UsesOf(data, OpTerm(op))));
    ZipUnzip(ConstValues(data, KeysOf(sets)), ConstValues(data, ValuesOf(sets)))
  }

  /** `oldKeysAndVals`: the entries a table constant already has; an empty table has none. */
  function OldKeysAndVals(c: IrConst): Result<(seq<IrConst>, seq<IrConst>)>
  {
    match c
    case OfTable(ks, vs) => Ok((ks, vs))
    case OfEmptyTable => Ok(([], []))
    case _ => Err(IllegalArgumentException)
  }

  /**
   * `tablePropagate`: the table constant with the entries set on it
   * appended to its own, or the constant retained if no entry was found.
   */
  function TablePropagate(op: Op, data: FunData): Result<Transform>
    requires op.Const?
  {
    var (oldKeys, oldVals) :- OldKeysAndVals(op.constant);
    var (keys, vals) := KeysAndVals(op, data);
    var newKeys := oldKeys + keys;
    var newVals := oldVals + vals;
    if newKeys == oldKeys && newVals == oldVals then Ok(Retain(op))
    else
      var newConst := if |newKeys| > 0 then OfTable(newKeys, newVals) else OfEmptyTable;
      var newOp := Const(OpTerm(op), newConst, op.info);
      Ok(Replace(newOp, FunStats.DeriveFrom(newOp)))
  }

  /** `tableHasEntry`: the definition is a non-empty table constant holding the pair at some position. */
  predicate TableHasEntry(tableDef: Op, key: IrConst, value: IrConst)
  {
    && tableDef.Const?
    && tableDef.constant.OfTable?
    && exists i :: 0 <= i < |tableDef.constant.keys| && i < |tableDef.constant.vals|
         && tableDef.constant.keys[i] == key && tableDef.constant.vals[i] == value
  }

  /**
   * `removeTableSet`: the entry is already in the table constant, so the
   * code is removed and its terms are no longer used by it.
   */
  function RemoveTableSet(op: Op, data: FunData): Transform
    requires op.OfTac? && op.tac.TableSet?
  {
    var tac := op.tac;
    var table := DefOf(data, tac.to);
    var keyDef := DefOf(data, tac.key);
    var valueDef := DefOf(data, tac.value);
    if table.None? || keyDef.None? || valueDef.None? || !(keyDef.value.Const? && valueDef.value.Const?) then
      Retain(op)
    else if !TableHasEntry(table.value, keyDef.value.constant, valueDef.value.constant) then
      Retain(op)
    else
      Remove(op, [OfTerm(TermChanges.Unuse(OpAllTerms(op), op))])
  }

  /** The callback of `apply`: table constants are propagated into, `TableSet`s removed if possible. */
  function Callback(data: FunData, op: Op): Result<Transform>
  {
    match op
    case Const(_, c, _) =>
      if c.OfTable? || c.OfEmptyTable? then TablePropagate(op, data) else Ok(Retain(op))
    case OfTac(tac) =>
      if tac.TableSet? then Ok(RemoveTableSet(op, data)) else Ok(Retain(op))
    case _ => Ok(Retain(op))
  }

  /** `apply`: the callback over every operation of the canvas. */
  function Apply(c: Canvas): Result<Canvas>
  {
    EachOp(c, Callback)
  }

  /**
   * The pass never throws, and it leaves alone every operation other than
   * a table constant or a `TableSet`.
   */
  lemma CallbackScope(data: FunData, op: Op)
    ensures Callback(data, op).Ok?
    ensures !(op.Const? && (op.constant.OfTable? || op.constant.OfEmptyTable?)) && !(op.OfTac? && op.tac.TableSet?)
      ==> Callback(data, op) == Ok(Retain(op))
  {
  }

  /**
   * A table constant is retained exactly when no entry is set on it;
   * otherwise it becomes a constant with the same term and line, whose
   * entries are its own followed by the ones found, and which is empty
   * only if it has no key.
   */
  lemma TablePropagateSpec(op: Op, data: FunData)
    requires op.Const? && (op.constant.OfTable? || op.constant.OfEmptyTable?)
    ensures
      var (oldKeys, oldVals) := if op.constant.OfTable? then (op.constant.keys, op.constant.vals) else ([], []);
      var (keys, vals) := KeysAndVals(op, data);
      var r := Callback(data, op);
      && r.Ok?
      && (r.value.Retain? <==> |keys| == 0)
      && (r.value.Retain? ==> r.value.retained == op)
      && (r.value.Replace? ==>
            && r.value.newOp.Const?
            && r.value.newOp.to == op.to && r.value.newOp.info == op.info
            && (|oldKeys + keys| > 0 ==> r.value.newOp.constant == OfTable(oldKeys + keys, oldVals + vals))
            && (|oldKeys + keys| == 0 ==> r.value.newOp.constant == OfEmptyTable)
            && r.value.changes == FunStats.DeriveFrom(r.value.newOp))
  {
    var (oldKeys, oldVals) := if op.constant.OfTable? then (op.constant.keys, op.constant.vals) else ([], []);
    var (keys, vals) := KeysAndVals(op, data);
    if |keys| == 0 {
      assert oldKeys + keys == oldKeys && oldVals + vals == oldVals;
    }
  }

  /**
   * A `TableSet` is replaced only by a dummy, only when its table, key and
   * value all have definitions, key and value are constants and the table
   * constant already holds that pair; then every term of the code is
   * released.
   */
  lemma RemoveTableSetSpec(op: Op, data: FunData)
    requires op.OfTac? && op.tac.TableSet?
    ensures
      var r := Callback(data, op);
      var table := DefOf(data, op.tac.to);
      var keyDef := DefOf(data, op.tac.key);
      var valueDef := DefOf(data, op.tac.value);
      && r.Ok?
      && (r.value.Replace? <==>
            && table.Some? && keyDef.Some? && valueDef.Some?
            && keyDef.value.Const? && valueDef.value.Const?
            && TableHasEntry(table.value, keyDef.value.constant, valueDef.value.constant))
      && (r.value.Retain? ==> r.value.retained == op)
      && (r.value.Replace? ==>
            && r.value.newOp == Dummy(op.tac.to)
            && r.value.changes == [OfTerm(TermChanges.Unuse([op.tac.to, op.tac.key, op.tac.value], op))])
  {
  }

  /**
   * Keys and values are paired by position, so when more keys than values
   * (or the reverse) are constants, the extra ones are dropped.
   */
  lemma UnmatchedDropped(keys: seq<IrConst>, vals: seq<IrConst>)
    ensures |keys| > |vals| ==> ZipUnzip(keys, vals) == (keys[..|vals|], vals)
    ensures |keys| <= |vals| ==> ZipUnzip(keys, vals) == (keys, vals[..|keys|])
  {
    assert keys[..|keys|] == keys && vals[..|vals|] == vals;
  }

  /**
   * Reversing the recorded uses gives the operations in program order: the
   * statistics record the uses of a term last operation first.
   */
  lemma {:induction false} UsesReversedInProgramOrder(blocks: seq<Block>, t: Term)
    ensures TermChanges.Reverse(UsesOf(FunStats.From(blocks), t)) == TermStats.UsersOf(FlattenOps(blocks), t.id)
  {
    FromTermData(blocks, t);
    ReverseReverse(TermStats.UsersOf(FlattenOps(blocks), t.id));
  }

  lemma {:induction false} ReverseReverse<T>(s: seq<T>)
    ensures TermChanges.Reverse(TermChanges.Reverse(s)) == s
  {
    if |s| > 0 {
      ReverseReverse(s[1..]);
      TermChanges.ReverseAppend(TermChanges.Reverse(s[1..]), [s[0]]);
      assert TermChanges.Reverse([s[0]]) == [s[0]];
      assert [s[0]] + s[1..] == s;
    }
  }
}
