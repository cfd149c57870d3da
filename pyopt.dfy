/**
 * The Python optimizer driver (`nevec/opt/opt.py`): the passes of a list
 * run one after the other, each on the instructions the previous one
 * produced, and the symbol table is cleaned up once the list is exhausted.
 * A pass's own `optimize` and the table's `cleanup` are not part of this
 * model; they are given as functions on the instructions and on the
 * table's state `S`, which the driver threads through.
 */
module PyOptimizing {
  import opened Wrappers
  import opened PyIr

  /** The pass classes the driver can be given. */
  datatype PassClass = ConstFoldPass

  /** `PASSES`: constant folding only. */
  const DefaultPasses: seq<PassClass> := [ConstFoldPass]

  /** A pass run: the instructions it produces and the table it leaves. */
  type PassRun<!S> = (PassClass, S, seq<Instr>) -> (seq<Instr>, S)

  /** Every pass of the list in order, with no cleanup. */
  function RunAll<S>(run: PassRun<S>, syms: S, ir: seq<Instr>, passes: seq<PassClass>): (seq<Instr>, S)
    decreases |passes|
  {
    if passes == [] then (ir, syms)
    else
      var (next, after) := run(passes[0], syms, ir);
      RunAll(run, after, next, passes[1..])
  }

  /** `optimize` with an explicit pass list. */
  function OptimizeWith<S>(run: PassRun<S>, cleanup: S -> S, syms: S, ir: seq<Instr>, passes: seq<PassClass>): (seq<Instr>, S)
    decreases |passes|
  {
    if passes == [] then (ir, cleanup(syms))
    else
      var (optIr, after) := run(passes[0], syms, ir);
      OptimizeWith(run, cleanup, after, optIr, passes[1..])
  }

  /** `optimize`: with no list given, `PASSES`. */
  function Optimize<S>(run: PassRun<S>, cleanup: S -> S, syms: S, ir: seq<Instr>, passes: Option<seq<PassClass>>): (seq<Instr>, S)
  {
    OptimizeWith(run, cleanup, syms, ir, if passes.Some? then passes.value else DefaultPasses)
  }

  /**
   * The instructions are those of the passes run in order, and the table
   * is cleaned up exactly once, after the last pass.
   */
  lemma {:induction false} CleanupOnceAtEnd<S>(run: PassRun<S>, cleanup: S -> S, syms: S, ir: seq<Instr>, passes: seq<PassClass>)
    ensures OptimizeWith(run, cleanup, syms, ir, passes) ==
      (RunAll(run, syms, ir, passes).0, cleanup(RunAll(run, syms, ir, passes).1))
    decreases |passes|
  {
    if passes != [] {
      var (next, after) := run(passes[0], syms, ir);
      CleanupOnceAtEnd(run, cleanup, after, next, passes[1..]);
    }
  }

  /** Running two lists one after the other is running their concatenation. */
  lemma {:induction false} RunAllSequences<S>(run: PassRun<S>, syms: S, ir: seq<Instr>, first: seq<PassClass>, second: seq<PassClass>)
    ensures RunAll(run, syms, ir, first + second) ==
      RunAll(run, RunAll(run, syms, ir, first).1, RunAll(run, syms, ir, first).0, second)
    decreases |first|
  {
    if first == [] {
      assert first + second == second;
    } else {
      var (next, after) := run(first[0], syms, ir);
      assert (first + second)[0] == first[0];
      assert (first + second)[1..] == first[1..] + second;
      RunAllSequences(run, after, next, first[1..], second);
    }
  }

  /** An empty list returns the instructions unchanged, after the cleanup. */
  lemma EmptyListOnlyCleans<S>(run: PassRun<S>, cleanup: S -> S, syms: S, ir: seq<Instr>)
    ensures Optimize(run, cleanup, syms, ir, Some([])) == (ir, cleanup(syms))
  {
  }

  /** With no list given, the driver runs constant folding once and then cleans up. */
  lemma DefaultIsConstFold<S>(run: PassRun<S>, cleanup: S -> S, syms: S, ir: seq<Instr>)
    ensures
      var (folded, after) := run(ConstFoldPass, syms, ir);
      Optimize(run, cleanup, syms, ir, None) == (folded, cleanup(after))
  {
    var (folded, after) := run(ConstFoldPass, syms, ir);
    assert DefaultPasses[0] == ConstFoldPass && DefaultPasses[1..] == [];
    assert OptimizeWith(run, cleanup, syms, ir, DefaultPasses) == OptimizeWith(run, cleanup, after, folded, []);
  }
}
