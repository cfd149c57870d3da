/**
 * The optimization stage (`opt/Opt.kt`): every function of a module is run
 * through the passes, round after round, until a round changes nothing or
 * the repetition threshold is reached.
 */
module Optimization {
  import opened Wrappers
  import opened FunStats
  import opened Canvases
  import ConstFolding
  import DeadTermEliminating

  /**
   * The canvas operations the stage relies on whose definitions are not
   * part of this model: whether the last round changed anything, a copy
   * with the change log cleared, the end of a pass, and the function a
   * canvas stands for.
   */
  datatype CanvasHooks = CanvasHooks(
    isUnchanged: Canvas -> bool,
    changeless: Canvas -> Canvas,
    finish: Canvas -> Canvas,
    finalized: Canvas -> IrFun)

  /** `repetitionThreshold`: 3 for now. */
  const RepetitionThreshold: nat := 3

  /** The passes of a round, in order: `ConstFold`, then `DeadTermElim`. */
  datatype PassId = ConstFold | DeadTermElim

  const Passes: seq<PassId> := [ConstFold, DeadTermElim]

  /** `pass.apply(to = acc)`. */
  function ApplyPass(fmt: ConstFolding.FloatFormat, p: PassId, c: Canvas): Result<Canvas>
  {
    match p
    case ConstFold => ConstFolding.Apply(fmt, c)
    case DeadTermElim => DeadTermEliminating.Apply(c)
  }

  /** `passes.fold(initial) { acc, pass -> pass.apply(to = acc).finish() }`; a pass that throws ends the fold. */
  function FoldPasses(fmt: ConstFolding.FloatFormat, h: CanvasHooks, ps: seq<PassId>, acc: Canvas): Result<Canvas>
  {
    if |ps| == 0 then Ok(acc)
    else
      var applied :- ApplyPass(fmt, ps[0], acc);
      FoldPasses(fmt, h, ps[1..], h.finish(applied))
  }

  /** One round: every pass, on a canvas whose change log was cleared. */
  function Round(fmt: ConstFolding.FloatFormat, h: CanvasHooks, c: Canvas): Result<Canvas>
  {
    FoldPasses(fmt, h, Passes, h.changeless(c))
  }

  /** `repeatedOptimization`. */
  function RepeatedOptimization(fmt: ConstFolding.FloatFormat, h: CanvasHooks, c: Canvas, repetition: nat): Result<Canvas>
    requires repetition <= RepetitionThreshold
    decreases RepetitionThreshold - repetition
  {
    if repetition == RepetitionThreshold then Ok(c)
    else if repetition > 0 && h.isUnchanged(c) then Ok(c)
    else
      var optimized :- Round(fmt, h, c);
      RepeatedOptimization(fmt, h, optimized, repetition + 1)
  }

  /** `optimize`: the rounds from a fresh canvas, then the function it stands for. */
  function Optimize(fmt: ConstFolding.FloatFormat, h: CanvasHooks, f: IrFun): Result<IrFun>
  {
    var c :- RepeatedOptimization(fmt, h, Canvases.From(f), 0);
    Ok(h.finalized(c))
  }

  /** Every function optimized on its own, in order; the first failure is the stage's. */
  function OptimizeAll(fmt: ConstFolding.FloatFormat, h: CanvasHooks, fs: seq<IrFun>): (r: Result<seq<IrFun>>)
    ensures r.Ok? ==> |r.value| == |fs|
    ensures r.Ok? <==> forall i :: 0 <= i < |fs| ==> Optimize(fmt, h, fs[i]).Ok?
    ensures r.Ok? ==> forall i :: 0 <= i < |fs| ==> r.value[i] == Optimize(fmt, h, fs[i]).value
  {
    EachOf(f => Optimize(fmt, h, f), fs)
  }

  /** `g` applied to each element in order, stopping at the first failure. */
  function EachOf(g: IrFun -> Result<IrFun>, fs: seq<IrFun>): (r: Result<seq<IrFun>>)
    ensures r.Ok? ==> |r.value| == |fs|
    ensures r.Ok? <==> forall i :: 0 <= i < |fs| ==> g(fs[i]).Ok?
    ensures r.Ok? ==> forall i :: 0 <= i < |fs| ==> r.value[i] == g(fs[i]).value
  {
    if |fs| == 0 then Ok([])
    else
      var first :- g(fs[0]);
      var rest :- EachOf(g, fs[1..]);
      assert forall i :: 1 <= i < |fs| ==> fs[1..][i - 1] == fs[i];
      Ok([first] + rest)
  }

  /**
   * `perform`: the module with each function replaced by its optimized
   * form, in the same order and of the same number.
   */
  function Perform(fmt: ConstFolding.FloatFormat, h: CanvasHooks, m: IrModule): (r: Result<IrModule>)
    ensures r.Ok? <==> forall i :: 0 <= i < |m.functions| ==> Optimize(fmt, h, m.functions[i]).Ok?
    ensures r.Ok? ==> |r.value.functions| == |m.functions|
    ensures r.Ok? ==> forall i :: 0 <= i < |m.functions| ==>
      r.value.functions[i] == Optimize(fmt, h, m.functions[i]).value
  {
    var fs :- OptimizeAll(fmt, h, m.functions);
    Ok(IrModule(fs))
  }

  /** `n` rounds in a row, stopping at the first failure. */
  function Rounds(fmt: ConstFolding.FloatFormat, h: CanvasHooks, c: Canvas, n: nat): Result<Canvas>
    decreases n
  {
    if n == 0 then Ok(c)
    else
      var next :- Round(fmt, h, c);
      Rounds(fmt, h, next, n - 1)
  }

  /**
   * A round runs `ConstFold` and then `DeadTermElim`, each on the finished
   * canvas of the one before; it fails exactly when one of them does.
   */
  lemma RoundIsConstFoldThenDeadTermElim(fmt: ConstFolding.FloatFormat, h: CanvasHooks, c: Canvas)
    ensures
      var folded := ConstFolding.Apply(fmt, h.changeless(c));
      Round(fmt, h, c) ==
        if folded.Err? then Err(folded.error)
        else
          var dead := DeadTermEliminating.Apply(h.finish(folded.value));
          if dead.Err? then Err(dead.error) else Ok(h.finish(dead.value))
  {
    var folded := ConstFolding.Apply(fmt, h.changeless(c));
    assert Passes[0] == ConstFold && Passes[1..] == [DeadTermElim];
    if folded.Ok? {
      var rest := Passes[1..];
      assert rest[0] == DeadTermElim && rest[1..] == [];
      var dead := DeadTermEliminating.Apply(h.finish(folded.value));
      assert FoldPasses(fmt, h, Passes, h.changeless(c)) == FoldPasses(fmt, h, rest, h.finish(folded.value));
      if dead.Ok? {
        assert FoldPasses(fmt, h, rest, h.finish(folded.value)) == FoldPasses(fmt, h, [], h.finish(dead.value));
      }
    }
  }

  /**
   * The stage ends after at least one and at most three rounds; when it
   * ends before the third, the last round changed nothing.
   */
  lemma {:induction false} AtMostThreeRounds(fmt: ConstFolding.FloatFormat, h: CanvasHooks, c: Canvas, repetition: nat)
    requires repetition <= RepetitionThreshold
    requires RepeatedOptimization(fmt, h, c, repetition).Ok?
    ensures exists n: nat :: EndsAfter(fmt, h, c, repetition, n)
    decreases RepetitionThreshold - repetition
  {
    if repetition == RepetitionThreshold || (repetition > 0 && h.isUnchanged(c)) {
      assert EndsAfter(fmt, h, c, repetition, 0);
    } else {
      var next := Round(fmt, h, c).value;
      RepeatedStep(fmt, h, c, repetition);
      AtMostThreeRounds(fmt, h, next, repetition + 1);
      var m: nat :| EndsAfter(fmt, h, next, repetition + 1, m);
      assert Rounds(fmt, h, c, m + 1) == Rounds(fmt, h, next, m);
      assert EndsAfter(fmt, h, c, repetition, m + 1);
    }
  }

  /**
   * Starting at `repetition`, the stage gives what `n` rounds give, having
   * run at least one round in all and no more than the threshold, and it
   * stopped early only on a canvas that did not change.
   */
  predicate EndsAfter(fmt: ConstFolding.FloatFormat, h: CanvasHooks, c: Canvas, repetition: nat, n: nat)
    requires repetition <= RepetitionThreshold
  {
    && (repetition == 0 ==> n >= 1)
    && repetition + n <= RepetitionThreshold
    && Rounds(fmt, h, c, n) == RepeatedOptimization(fmt, h, c, repetition)
    && (repetition + n < RepetitionThreshold ==>
          RepeatedOptimization(fmt, h, c, repetition).Ok? && h.isUnchanged(RepeatedOptimization(fmt, h, c, repetition).value))
  }

  /** Below the threshold and not stopped, the stage is one round and then the rest. */
  lemma RepeatedStep(fmt: ConstFolding.FloatFormat, h: CanvasHooks, c: Canvas, repetition: nat)
    requires repetition < RepetitionThreshold && !(repetition > 0 && h.isUnchanged(c))
    requires RepeatedOptimization(fmt, h, c, repetition).Ok?
    ensures Round(fmt, h, c).Ok?
    ensures RepeatedOptimization(fmt, h, c, repetition) == RepeatedOptimization(fmt, h, Round(fmt, h, c).value, repetition + 1)
  {
  }

  /** The first round always runs, even on a canvas with nothing to change. */
  lemma FirstRoundAlwaysRuns(fmt: ConstFolding.FloatFormat, h: CanvasHooks, c: Canvas)
    ensures Round(fmt, h, c).Err? ==> RepeatedOptimization(fmt, h, c, 0) == Err(Round(fmt, h, c).error)
    ensures Round(fmt, h, c).Ok? ==>
      RepeatedOptimization(fmt, h, c, 0) == RepeatedOptimization(fmt, h, Round(fmt, h, c).value, 1)
  {
  }

  /** A later round that finds the canvas unchanged ends the stage with it. */
  lemma StopsWhenUnchanged(fmt: ConstFolding.FloatFormat, h: CanvasHooks, c: Canvas, repetition: nat)
    requires 0 < repetition <= RepetitionThreshold
    requires h.isUnchanged(c) || repetition == RepetitionThreshold
    ensures RepeatedOptimization(fmt, h, c, repetition) == Ok(c)
  {
  }
}
