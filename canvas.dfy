/**
 * The space in which an optimization pass builds its version of a function
 * (`opt/canvas/Canvas.kt`), and the transforms a pass hands it for each
 * operation (`opt/transform/Transform.kt`).
 */
module Canvases {
  import opened Wrappers
  import opened Ir
  import opened FunStats

  /** What a pass does with one operation: keep it, or put another in its place. */
  datatype Transform =
    | Retain(retained: Op)
    | Replace(newOp: Op, changes: seq<Change>)

  /** `changes()`: a retained operation carries no changes. */
  function TransformChanges(t: Transform): (r: seq<Change>)
    ensures t.Retain? ==> r == []
    ensures t.Replace? ==> r == t.changes
  {
    match t
    case Retain(_) => []
    case Replace(_, cs) => cs
  }

  /**
   * `Transform.Remove(changes)` as the passes use it: the operation being
   * visited gives way to a dummy standing for its term.
   */
  function Remove(op: Op, changes: seq<Change>): (t: Transform)
    ensures t.Replace? && t.newOp.Dummy? && t.newOp.term == OpTerm(op)
    ensures TransformChanges(t) == changes
    ensures OpAllTerms(t.newOp) == [] && !OpIsDefinition(t.newOp)
  {
    Replace(Dummy(OpTerm(op)), changes)
  }

  /**
   * A canvas: the function it was built from, the function produced so far
   * and every change the passes made on the way. The id system the source
   * also carries is used by no pass and is left out.
   */
  datatype Canvas = Canvas(model: IrFun, produced: IrFun, changes: seq<Change>)

  /** `Canvas.from`: nothing produced yet but the model itself, and no change. */
  function From(model: IrFun): (c: Canvas)
    ensures c.model == model && c.produced == model && c.changes == []
  {
    Canvas(model, model, [])
  }

  /** `extract`: the produced function. */
  function Extract(c: Canvas): IrFun
  {
    c.produced
  }

  /** The operations of a function, all blocks flattened in order. */
  function Flattened(f: IrFun): seq<Op>
  {
    FlattenOps(f.blocks)
  }

  /** `opCount`: how many operations a function has. */
  function OpCount(f: IrFun): nat
  {
    |Flattened(f)|
  }

  /** Two block lists with the same ids, names and numbers of operations, block by block. */
  predicate SameShape(a: seq<Block>, b: seq<Block>)
  {
    && |a| == |b|
    && forall k :: 0 <= k < |a| ==>
         a[k].id == b[k].id && a[k].desiredName == b[k].desiredName && |a[k].ops| == |b[k].ops|
  }

  /** Blocks of the same shape hold the same number of operations. */
  lemma {:induction false} SameShapeLength(a: seq<Block>, b: seq<Block>)
    requires SameShape(a, b)
    ensures |FlattenOps(a)| == |FlattenOps(b)|
  {
    if |a| > 0 {
      assert SameShape(a[1..], b[1..]) by {
        forall k | 0 <= k < |a[1..]|
          ensures a[1..][k].id == b[1..][k].id && a[1..][k].desiredName == b[1..][k].desiredName
          ensures |a[1..][k].ops| == |b[1..][k].ops|
        {
          assert a[1..][k] == a[k + 1] && b[1..][k] == b[k + 1];
        }
      }
      SameShapeLength(a[1..], b[1..]);
    }
  }

  lemma SameShapeTransitive(a: seq<Block>, b: seq<Block>, c: seq<Block>)
    requires SameShape(a, b) && SameShape(b, c)
    ensures SameShape(a, c)
  {
  }

  /**
   * `replacementCopy`: the block with the operation at `at` replaced, its
   * id, name and every other operation as they were.
   */
  function ReplacementCopy(previous: Block, newOp: Op, at: int): (r: Block)
    requires 0 <= at < |previous.ops|
    ensures r.id == previous.id && r.desiredName == previous.desiredName
    ensures r.ops == previous.ops[at := newOp]
  {
    Block(previous.id, previous.desiredName, previous.ops[..at] + [newOp] + previous.ops[at + 1..])
  }

  /**
   * The blocks of `applyReplace`: each block whose running range of
   * flattened indices, starting at `start`, holds `iteration` gets the new
   * operation at the matching offset; every other block is kept.
   */
  function ReplaceIn(blocks: seq<Block>, start: int, iteration: int, newOp: Op): (r: seq<Block>)
    ensures SameShape(r, blocks)
  {
    if |blocks| == 0 then []
    else
      var block := blocks[0];
      var end := start + |block.ops|;
      var first := if start <= iteration < end then ReplacementCopy(block, newOp, iteration - start) else block;
      [first] + ReplaceIn(blocks[1..], end, iteration, newOp)
  }

  /**
   * Replacing by flattened index touches exactly one operation: the one at
   * `iteration` counted from `start`, if there is one.
   */
  lemma {:induction false} ReplaceInFlattens(blocks: seq<Block>, start: int, iteration: int, newOp: Op)
    ensures start <= iteration < start + |FlattenOps(blocks)| ==>
      FlattenOps(ReplaceIn(blocks, start, iteration, newOp)) == FlattenOps(blocks)[iteration - start := newOp]
    ensures !(start <= iteration < start + |FlattenOps(blocks)|) ==>
      FlattenOps(ReplaceIn(blocks, start, iteration, newOp)) == FlattenOps(blocks)
  {
    if |blocks| > 0 {
      var block := blocks[0];
      var end := start + |block.ops|;
      var rest := FlattenOps(blocks[1..]);
      var restR := FlattenOps(ReplaceIn(blocks[1..], end, iteration, newOp));
      ReplaceInFlattens(blocks[1..], end, iteration, newOp);
      var r := ReplaceIn(blocks, start, iteration, newOp);
      assert r[1..] == ReplaceIn(blocks[1..], end, iteration, newOp);
      assert FlattenOps(r) == r[0].ops + restR;
      assert FlattenOps(blocks) == block.ops + rest;
      if start <= iteration < end {
        assert restR == rest;
        UpdateLeft(block.ops, rest, iteration - start, newOp);
      } else if end <= iteration < end + |rest| {
        assert r[0] == block;
        UpdateRight(block.ops, rest, iteration - end, newOp);
      }
    }
  }

  lemma UpdateLeft(a: seq<Op>, b: seq<Op>, k: int, x: Op)
    requires 0 <= k < |a|
    ensures (a + b)[k := x] == a[k := x] + b
  {
  }

  lemma UpdateRight(a: seq<Op>, b: seq<Op>, k: int, x: Op)
    requires 0 <= k < |b|
    ensures (a + b)[|a| + k := x] == a + b[k := x]
  {
  }

  /**
   * `applyChanges`: the first change is applied last, on top of the
   * others applied to `original`.
   */
  function ApplyChanges(changes: seq<Change>, original: FunData): FunData
  {
    if |changes| == 0 then original
    else ApplyChange(changes[0], ApplyChanges(changes[1..], original))
  }

  /** Applying a list of changes is applying its last change first. */
  lemma {:induction false} ApplyChangesLastFirst(changes: seq<Change>, last: Change, original: FunData)
    ensures ApplyChanges(changes + [last], original) == ApplyChanges(changes, ApplyChange(last, original))
  {
    if |changes| == 0 {
      assert changes + [last] == [last];
      assert ApplyChanges([last][1..], original) == original;
    } else {
      assert (changes + [last])[1..] == changes[1..] + [last];
      ApplyChangesLastFirst(changes[1..], last, original);
    }
  }

  /** The canvas applies changes the way `FunData.updateAll` does, on top of existing statistics. */
  lemma {:induction false} ApplyChangesIsUpdateAll(changes: seq<Change>, original: FunData)
    ensures ApplyChanges(changes, original) == UpdateAllOnto(changes, original)
    ensures ApplyChanges(changes, EmptyFunData()) == UpdateAll(changes)
  {
    if |changes| > 0 {
      ApplyChangesIsUpdateAll(changes[1..], original);
      ApplyChangesIsUpdateAll(changes[1..], EmptyFunData());
    }
  }

  /** `applyReplace`: the new operation at flattened index `iteration`, and the statistics updated by the changes. */
  function ApplyReplace(produced: IrFun, newOp: Op, changes: seq<Change>, iteration: int): IrFun
  {
    IrFun(produced.mangledName, ReplaceIn(produced.blocks, 0, iteration, newOp), ApplyChanges(changes, produced.funData))
  }

  /**
   * `applyTransform`: a retained operation leaves the produced function as it
   * was; a replacement swaps the operation at `iteration` and nothing else
   * of the blocks, and brings the statistics up to date with its changes.
   * Either way the transform's changes are returned for the canvas to keep.
   */
  function ApplyTransform(produced: IrFun, t: Transform, iteration: int): (r: (IrFun, seq<Change>))
    ensures r.1 == TransformChanges(t)
    ensures t.Retain? ==> r.0 == produced
    ensures t.Replace? ==> r.0.mangledName == produced.mangledName
    ensures t.Replace? ==> r.0.funData == ApplyChanges(t.changes, produced.funData)
    ensures SameShape(r.0.blocks, produced.blocks)
    ensures t.Replace? && 0 <= iteration < OpCount(produced) ==> Flattened(r.0) == Flattened(produced)[iteration := t.newOp]
    ensures t.Replace? && !(0 <= iteration < OpCount(produced)) ==> Flattened(r.0) == Flattened(produced)
  {
    var p := match t
      case Retain(_) => produced
      case Replace(n, cs) => ApplyReplace(produced, n, cs, iteration);
    if t.Replace? then
      ReplaceInFlattens(produced.blocks, 0, iteration, t.newOp);
      (p, TransformChanges(t))
    else
      (p, TransformChanges(t))
  }

  /**
   * The callback a pass gives `eachOp`: it sees the statistics of the
   * function produced so far and one operation of the model, and either
   * decides a transform or throws.
   */
  type Callback = (FunData, Op) -> Result<Transform>

  /** `applyCallback` followed by the copy of `recursiveEachOp`: one visit. */
  function Visit(c: Canvas, callback: Callback, iteration: nat): (r: Result<Canvas>)
    requires iteration < OpCount(c.model)
    ensures callback(c.produced.funData, Flattened(c.model)[iteration]).Err? <==> r.Err?
    ensures r.Ok? ==> r.value.model == c.model
  {
    match callback(c.produced.funData, Flattened(c.model)[iteration])
    case Err(e) => Err(e)
    case Ok(t) =>
      var (produced, newChanges) := ApplyTransform(c.produced, t, iteration);
      Ok(Canvas(c.model, produced, c.changes + newChanges))
  }

  /**
   * `recursiveEachOp`: visits the model's operations from `iteration` to the
   * last, in order. The model never changes, the change list only grows, and
   * the produced blocks keep their ids, names and sizes.
   */
  function RecursiveEachOp(c: Canvas, callback: Callback, iteration: nat): (r: Result<Canvas>)
    ensures r.Ok? ==> r.value.model == c.model
    ensures r.Ok? ==> |c.changes| <= |r.value.changes| && r.value.changes[..|c.changes|] == c.changes
    ensures r.Ok? ==> SameShape(r.value.produced.blocks, c.produced.blocks)
    ensures r.Ok? ==> r.value.produced.mangledName == c.produced.mangledName
    decreases OpCount(c.model) - iteration
  {
    if iteration >= OpCount(c.model) then Ok(c)
    else
      match Visit(c, callback, iteration)
      case Err(e) => Err(e)
      case Ok(next) =>
        var r := RecursiveEachOp(next, callback, iteration + 1);
        if r.Ok? then
          SameShapeTransitive(r.value.produced.blocks, next.produced.blocks, c.produced.blocks);
          PrefixOfPrefix(c.changes, next.changes, r.value.changes);
          r
        else r
  }

  lemma PrefixOfPrefix(a: seq<Change>, b: seq<Change>, c: seq<Change>)
    requires |a| <= |b| && b[..|a|] == a
    requires |b| <= |c| && c[..|b|] == b
    ensures |a| <= |c| && c[..|a|] == a
  {
    assert c[..|a|] == c[..|b|][..|a|];
  }

  /** `eachOp`: every operation of the model, from the first. */
  function EachOp(c: Canvas, callback: Callback): Result<Canvas>
  {
    RecursiveEachOp(c, callback, 0)
  }

  /**
   * The calls `recursiveEachOp` makes of the callback, in order, with the
   * arguments each one receives, up to and including one that throws: the
   * operations of the model from `iteration` on, in order, the first call
   * seeing the statistics of the produced function, not those of the model.
   */
  function Calls(c: Canvas, callback: Callback, iteration: nat): (r: seq<(FunData, Op)>)
    ensures iteration + |r| <= OpCount(c.model) || |r| == 0
    ensures forall k :: 0 <= k < |r| ==> r[k].1 == Flattened(c.model)[iteration + k]
    ensures |r| > 0 ==> r[0].0 == c.produced.funData
    decreases OpCount(c.model) - iteration
  {
    if iteration >= OpCount(c.model) then []
    else
      var call := (c.produced.funData, Flattened(c.model)[iteration]);
      match Visit(c, callback, iteration)
      case Err(_) => [call]
      case Ok(next) =>
        var rest := Calls(next, callback, iteration + 1);
        PrependCall(call, rest, Flattened(next.model), iteration);
        [call] + rest
  }

  /** A call on the operation at `iteration`, before calls on the operations after it, covers them all in order. */
  lemma PrependCall(call: (FunData, Op), rest: seq<(FunData, Op)>, ops: seq<Op>, iteration: nat)
    requires iteration + 1 + |rest| <= |ops| && call.1 == ops[iteration]
    requires forall k :: 0 <= k < |rest| ==> rest[k].1 == ops[iteration + 1 + k]
    ensures forall k :: 0 <= k < |[call] + rest| ==> ([call] + rest)[k].1 == ops[iteration + k]
  {
    forall k | 0 <= k < |[call] + rest|
      ensures ([call] + rest)[k].1 == ops[iteration + k]
    {
      if k > 0 {
        assert ([call] + rest)[k] == rest[k - 1];
      }
    }
  }

  /** When no call throws, the callback is called exactly once for each model operation from `iteration` on. */
  lemma {:induction false} CallsCount(c: Canvas, callback: Callback, iteration: nat)
    requires RecursiveEachOp(c, callback, iteration).Ok?
    ensures |Calls(c, callback, iteration)| == if iteration >= OpCount(c.model) then 0 else OpCount(c.model) - iteration
    decreases OpCount(c.model) - iteration
  {
    if iteration < OpCount(c.model) {
      assert Visit(c, callback, iteration).Ok? && RecursiveEachOp(Visit(c, callback, iteration).value, callback, iteration + 1).Ok? by {
        VisitsOn(c, callback, iteration);
      }
      var next := Visit(c, callback, iteration).value;
      assert |Calls(c, callback, iteration)| == 1 + |Calls(next, callback, iteration + 1)| by {
        CallsOn(c, callback, iteration);
      }
      CallsCount(next, callback, iteration + 1);
    }
  }

  /** A run of visits that does not throw: its first visit does not, nor do the visits after it. */
  lemma VisitsOn(c: Canvas, callback: Callback, iteration: nat)
    requires iteration < OpCount(c.model) && RecursiveEachOp(c, callback, iteration).Ok?
    ensures Visit(c, callback, iteration).Ok?
    ensures RecursiveEachOp(Visit(c, callback, iteration).value, callback, iteration + 1).Ok?
  {
  }

  /** A visit that does not throw contributes one call, followed by the calls of the visits after it. */
  lemma CallsOn(c: Canvas, callback: Callback, iteration: nat)
    requires iteration < OpCount(c.model) && Visit(c, callback, iteration).Ok?
    ensures Calls(c, callback, iteration)
      == [(c.produced.funData, Flattened(c.model)[iteration])] + Calls(Visit(c, callback, iteration).value, callback, iteration + 1)
  {
  }

  /**
   * Visits from `iteration` on never touch an operation at a smaller
   * flattened index: each operation is replaced at most once, at its own
   * visit.
   */
  lemma {:induction false} EarlierOpsKept(c: Canvas, callback: Callback, iteration: nat, j: nat)
    requires j < iteration && j < OpCount(c.produced)
    requires RecursiveEachOp(c, callback, iteration).Ok?
    ensures j < OpCount(RecursiveEachOp(c, callback, iteration).value.produced)
    ensures Flattened(RecursiveEachOp(c, callback, iteration).value.produced)[j] == Flattened(c.produced)[j]
    decreases OpCount(c.model) - iteration
  {
    var r := RecursiveEachOp(c, callback, iteration).value;
    SameShapeLength(r.produced.blocks, c.produced.blocks);
    if iteration < OpCount(c.model) {
      var next := Visit(c, callback, iteration).value;
      EarlierOpsKept(next, callback, iteration + 1, j);
    }
  }

  /**
   * A callback that retains every operation and never throws leaves the
   * canvas exactly as it was.
   */
  lemma {:induction false} AllRetainedIsIdentity(c: Canvas, callback: Callback, iteration: nat)
    requires forall d, op :: callback(d, op).Ok? && callback(d, op).value.Retain?
    ensures RecursiveEachOp(c, callback, iteration) == Ok(c)
    decreases OpCount(c.model) - iteration
  {
    if iteration < OpCount(c.model) {
      var t := callback(c.produced.funData, Flattened(c.model)[iteration]);
      assert Visit(c, callback, iteration) == Ok(Canvas(c.model, c.produced, c.changes + []));
      assert c.changes + [] == c.changes;
      AllRetainedIsIdentity(c, callback, iteration + 1);
    }
  }
}
