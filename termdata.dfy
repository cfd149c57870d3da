/**
 * `ir/data/term/TermData.kt`: the statistics of every term of a function,
 * keyed by term id, and how they are built from the function's operations.
 */
module TermStats {
  import opened Wrappers
  import opened Ir
  import opened TermChanges

  datatype TermData = TermData(themselves: map<int, Stats>)

  /** `TermData.new`: nothing recorded. */
  function New(): TermData
  {
    TermData(map[])
  }

  /** The statistics of one term, or the default ones if it was never recorded. */
  function StatsOf(d: TermData, id: int): Stats
  {
    if id in d.themselves then d.themselves[id] else DefaultStats
  }

  /**
   * `update`: the change is applied to the previous statistics of each term
   * it names; a term named twice gets the change once. Every other term
   * keeps its statistics.
   */
  function Update(d: TermData, change: TermChange): (r: TermData)
    ensures forall id :: id in ChangeIds(change) ==> StatsOf(r, id) == ApplyTo(change, StatsOf(d, id))
    ensures forall id :: id !in ChangeIds(change) ==> StatsOf(r, id) == StatsOf(d, id)
    ensures r.themselves.Keys == d.themselves.Keys + ChangeIds(change)
  {
    var updated := map id | id in ChangeIds(change) :: ApplyTo(change, StatsOf(d, id));
    Plus(d, TermData(updated))
  }

  /** `plus`: both maps merged, the right one winning where both have a term. */
  function Plus(a: TermData, b: TermData): (r: TermData)
    ensures r.themselves.Keys == a.themselves.Keys + b.themselves.Keys
    ensures forall id :: id in b.themselves ==> StatsOf(r, id) == b.themselves[id]
    ensures forall id :: id !in b.themselves ==> StatsOf(r, id) == StatsOf(a, id)
  {
    TermData(a.themselves + b.themselves)
  }

  /** `updateAll`: the last change is applied first, the first change last. */
  function UpdateAll(changes: seq<TermChange>): TermData
  {
    if |changes| == 0 then New() else Update(UpdateAll(changes[1..]), changes[0])
  }

  /** Applies `changes`, the last one first, on top of `d`. */
  function UpdateAllOnto(changes: seq<TermChange>, d: TermData): TermData
  {
    if |changes| == 0 then d else Update(UpdateAllOnto(changes[1..], d), changes[0])
  }

  /** The changes of a later list are applied before those of an earlier one. */
  lemma {:induction false} UpdateAllAppend(a: seq<TermChange>, b: seq<TermChange>)
    ensures UpdateAll(a + b) == UpdateAllOnto(a, UpdateAll(b))
  {
    if |a| == 0 {
      assert a + b == b;
    } else {
      assert (a + b)[1..] == a[1..] + b;
      UpdateAllAppend(a[1..], b);
    }
  }

  /** The term changes of a list of operations, one operation after the other. */
  function ChangesOf(ops: seq<Op>): seq<TermChange>
  {
    if |ops| == 0 then [] else DeriveFrom(ops[0]) + ChangesOf(ops[1..])
  }

  /** `TermData.from`: the statistics derived from every operation of the blocks. */
  function From(blocks: seq<Block>): TermData
  {
    UpdateAll(ChangesOf(FlattenOps(blocks)))
  }

  /** Some term of `ts` has id `id`. */
  predicate HasId(ts: seq<Term>, id: int)
  {
    exists t :: t in ts && t.id == id
  }

  /**
   * How many times an operation is recorded as a use of term `id`: once if
   * it is an operand, and once more if it is the operation's own term and
   * the operation does not define it.
   */
  function UseCount(op: Op, id: int): nat
  {
    (if HasId(Operands(op), id) then 1 else 0)
    + (if !OpIsDefinition(op) && OpTerm(op).id == id then 1 else 0)
  }

  function Repeat(op: Op, n: nat): (r: seq<Op>)
    ensures |r| == n && forall u :: u in r ==> u == op
  {
    if n == 0 then [] else [op] + Repeat(op, n - 1)
  }

  lemma {:induction false} ReverseRepeat(op: Op, n: nat)
    ensures Reverse(Repeat(op, n)) == Repeat(op, n)
  {
    if n > 0 {
      ReverseRepeat(op, n - 1);
      assert Repeat(op, n) == Repeat(op, n - 1) + [op] by {
        RepeatSnoc(op, n);
      }
      ReverseAppend(Repeat(op, n - 1), [op]);
      assert Reverse([op]) == [op];
    }
  }

  lemma {:induction false} RepeatSnoc(op: Op, n: nat)
    requires n > 0
    ensures Repeat(op, n) == Repeat(op, n - 1) + [op]
  {
    if n > 1 {
      RepeatSnoc(op, n - 1);
    }
  }

  /** The operations using term `id`, in program order, each as often as it uses it. */
  function UsersOf(ops: seq<Op>, id: int): seq<Op>
  {
    if |ops| == 0 then [] else Repeat(ops[0], UseCount(ops[0], id)) + UsersOf(ops[1..], id)
  }

  /** The first operation that defines term `id`, if there is one. */
  function FirstDef(ops: seq<Op>, id: int): (r: Option<Op>)
    ensures r.Some? ==> r.value in ops && OpIsDefinition(r.value) && OpTerm(r.value).id == id
    ensures r.None? ==> forall op :: op in ops && OpIsDefinition(op) ==> OpTerm(op).id != id
  {
    if |ops| == 0 then None
    else if OpIsDefinition(ops[0]) && OpTerm(ops[0]).id == id then Some(ops[0])
    else FirstDef(ops[1..], id)
  }

  /** A `Uses` change appends its operation to the uses of every term it names. */
  lemma UsesEffect(d: TermData, ts: seq<Term>, op: Op, id: int, k: nat)
    requires k == if HasId(ts, id) then 1 else 0
    ensures StatsOf(Update(d, Uses(ts, op)), id).uses == StatsOf(d, id).uses + Repeat(op, k)
    ensures StatsOf(Update(d, Uses(ts, op)), id).def == StatsOf(d, id).def
  {
    assert id in ChangeIds(Uses(ts, op)) <==> k == 1;
    assert Repeat(op, 1) == [op];
  }

  /** The statistics one operation's changes leave on top of `d`. */
  lemma DeriveFromEffect(op: Op, d: TermData, id: int)
    ensures StatsOf(UpdateAllOnto(DeriveFrom(op), d), id).uses
      == StatsOf(d, id).uses + Repeat(op, UseCount(op, id))
    ensures StatsOf(UpdateAllOnto(DeriveFrom(op), d), id).def
      == if OpIsDefinition(op) && OpTerm(op).id == id then Some(op) else StatsOf(d, id).def
  {
    var cs := DeriveFrom(op);
    assert cs[1] == Uses(Operands(op), op);
    OntoPair(cs, d);
    if OpIsDefinition(op) {
      DefinitionEffect(op, d, id);
    } else {
      assert cs[0] == Uses([OpTerm(op)], op);
      ReaderEffect(op, d, id);
    }
  }

  /** A definition: its operands are used, then its term defined. */
  lemma DefinitionEffect(op: Op, d: TermData, id: int)
    requires OpIsDefinition(op)
    ensures StatsOf(Update(Update(d, Uses(Operands(op), op)), Def(OpTerm(op), Some(op))), id).uses
      == StatsOf(d, id).uses + Repeat(op, UseCount(op, id))
    ensures StatsOf(Update(Update(d, Uses(Operands(op), op)), Def(OpTerm(op), Some(op))), id).def
      == if OpTerm(op).id == id then Some(op) else StatsOf(d, id).def
  {
    var d1 := Update(d, Uses(Operands(op), op));
    UsesEffect(d, Operands(op), op, id, UseCount(op, id));
    DefEffect(d1, OpTerm(op), op, id);
  }

  /** Any other operation: its operands are used, then its own term. */
  lemma ReaderEffect(op: Op, d: TermData, id: int)
    requires !OpIsDefinition(op)
    ensures StatsOf(Update(Update(d, Uses(Operands(op), op)), Uses([OpTerm(op)], op)), id).uses
      == StatsOf(d, id).uses + Repeat(op, UseCount(op, id))
    ensures StatsOf(Update(Update(d, Uses(Operands(op), op)), Uses([OpTerm(op)], op)), id).def
      == StatsOf(d, id).def
  {
    var k1 := if HasId(Operands(op), id) then 1 else 0;
    var k0 := if OpTerm(op).id == id then 1 else 0;
    var d1 := Update(d, Uses(Operands(op), op));
    UsesEffect(d, Operands(op), op, id, k1);
    assert HasId([OpTerm(op)], id) <==> OpTerm(op).id == id by {
      assert OpTerm(op) in [OpTerm(op)];
    }
    UsesEffect(d1, [OpTerm(op)], op, id, k0);
    RepeatAdd(op, k1, k0);
    AppendAssociative(StatsOf(d, id).uses, Repeat(op, k1), Repeat(op, k0));
  }

  /** A `Def` change sets the definition of its one term only. */
  lemma DefEffect(d: TermData, t: Term, op: Op, id: int)
    ensures StatsOf(Update(d, Def(t, Some(op))), id).uses == StatsOf(d, id).uses
    ensures StatsOf(Update(d, Def(t, Some(op))), id).def
      == if t.id == id then Some(op) else StatsOf(d, id).def
  {
    assert ChangeIds(Def(t, Some(op))) == {t.id};
  }

  lemma AppendAssociative<T>(a: seq<T>, b: seq<T>, c: seq<T>)
    ensures (a + b) + c == a + (b + c)
  {
  }

  lemma OntoPair(cs: seq<TermChange>, d: TermData)
    requires |cs| == 2
    ensures UpdateAllOnto(cs, d) == Update(Update(d, cs[1]), cs[0])
  {
    assert UpdateAllOnto(cs[1..][1..], d) == d;
  }

  lemma {:induction false} RepeatAdd(op: Op, m: nat, n: nat)
    ensures Repeat(op, m) + Repeat(op, n) == Repeat(op, m + n)
  {
    if m > 0 {
      RepeatAdd(op, m - 1, n);
      assert Repeat(op, m) == [op] + Repeat(op, m - 1);
    } else {
      assert Repeat(op, m) == [];
    }
  }

  /**
   * What `TermData.from` records: each term's definition is the first
   * operation defining it, and its uses are the operations using it in
   * reverse program order (the last operation's changes are applied first).
   */
  lemma {:induction false} FromOpsStats(ops: seq<Op>, id: int)
    ensures StatsOf(UpdateAll(ChangesOf(ops)), id).uses == Reverse(UsersOf(ops, id))
    ensures StatsOf(UpdateAll(ChangesOf(ops)), id).def == FirstDef(ops, id)
  {
    if |ops| > 0 {
      FromOpsStats(ops[1..], id);
      var rest := UpdateAll(ChangesOf(ops[1..]));
      UpdateAllAppend(DeriveFrom(ops[0]), ChangesOf(ops[1..]));
      DeriveFromEffect(ops[0], rest, id);
      var rep := Repeat(ops[0], UseCount(ops[0], id));
      ReverseAppend(rep, UsersOf(ops[1..], id));
      ReverseRepeat(ops[0], UseCount(ops[0], id));
    }
  }

  /** `TermData.from` on whole blocks: the same, over the operations of all blocks in order. */
  lemma FromStats(blocks: seq<Block>, id: int)
    ensures StatsOf(From(blocks), id).uses == Reverse(UsersOf(FlattenOps(blocks), id))
    ensures StatsOf(From(blocks), id).def == FirstDef(FlattenOps(blocks), id)
  {
    FromOpsStats(FlattenOps(blocks), id);
  }
}
