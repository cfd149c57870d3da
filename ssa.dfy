/**
 * What makes a run of warm IR well formed: its definitions give the
 * temporaries `lo`, `lo + 1`, … each exactly once and in that order, and
 * every operation reads only temporaries an earlier operation defined.
 */
module Definitions {
  import opened Ir
  import opened Composing

  /** The id an operation defines, if it is a definition. */
  function DefIdOf(op: Op): seq<int>
  {
    if OpIsDefinition(op) then [OpTerm(op).id] else []
  }

  /** The ids the definitions of `ops` give their terms, in order. */
  function DefIds(ops: seq<Op>): seq<int>
  {
    if |ops| == 0 then [] else DefIds(ops[..|ops| - 1]) + DefIdOf(ops[|ops| - 1])
  }

  /**
   * The terms an operation reads: a definition reads its operands, every
   * other operation reads all its terms (`TableSet` the table it fills,
   * `Print` and `Ret` their term).
   */
  function Reads(op: Op): seq<Term>
  {
    if OpIsDefinition(op) then Operands(op) else OpAllTerms(op)
  }

  predicate ReadsWithin(op: Op, lo: int, hi: int)
  {
    forall i :: 0 <= i < |Reads(op)| ==> lo <= Reads(op)[i].id < hi
  }

  /** `ops` defines `lo`, …, `hi - 1`, each once, in that order, and nothing else. */
  predicate DefinesRange(ops: seq<Op>, lo: int, hi: int)
  {
    var ids := DefIds(ops);
    lo <= hi && |ids| == hi - lo && forall k :: 0 <= k < |ids| ==> ids[k] == lo + k
  }

  /** Every operation reads only ids from `lo` up to those defined before it. */
  predicate ReadsDefined(ops: seq<Op>, lo: int)
  {
    |ops| == 0 ||
      var init := ops[..|ops| - 1];
      ReadsDefined(init, lo) && ReadsWithin(ops[|ops| - 1], lo, lo + |DefIds(init)|)
  }

  /** The last operation's term, the one a lowered node's value is in. */
  function LastId(ops: seq<Op>): int
    requires |ops| > 0
  {
    OpTerm(ops[|ops| - 1]).id
  }

  /**
   * A lowered node: it defines `lo`, …, `hi - 1`, at least one of them,
   * reads only what it defined earlier, and its value is in `hi - 1`.
   */
  predicate WellFormed(ops: seq<Op>, lo: int, hi: int)
  {
    && lo < hi
    && DefinesRange(ops, lo, hi)
    && ReadsDefined(ops, lo)
    && |ops| > 0 && LastId(ops) == hi - 1
  }

  /** Each compose has a value, in an id from `lo` up to `hi`. */
  predicate ValuesWithin(cs: seq<Compose>, lo: int, hi: int)
  {
    forall i :: 0 <= i < |cs| ==> |cs[i].ops| > 0 && lo <= LastId(cs[i].ops) < hi
  }

  lemma ValuesWithinWiden(cs: seq<Compose>, lo: int, hi: int, lo2: int, hi2: int)
    requires ValuesWithin(cs, lo, hi) && lo2 <= lo && hi <= hi2
    ensures ValuesWithin(cs, lo2, hi2)
  {
  }

  /** Lowered nodes in a row: together they are well formed, and each has a value in range. */
  predicate AllWellFormed(cs: seq<Compose>, lo: int, hi: int)
  {
    && DefinesRange(Flatten(cs), lo, hi)
    && ReadsDefined(Flatten(cs), lo)
    && ValuesWithin(cs, lo, hi)
  }

  // ---------------------------------------------------------------------
  // Building well-formed runs

  lemma {:induction false} DefIdsAppend(a: seq<Op>, b: seq<Op>)
    ensures DefIds(a + b) == DefIds(a) + DefIds(b)
    decreases |b|
  {
    if |b| == 0 {
      assert a + b == a;
    } else {
      var ab := a + b;
      assert ab[..|ab| - 1] == a + b[..|b| - 1];
      assert ab[|ab| - 1] == b[|b| - 1];
      DefIdsAppend(a, b[..|b| - 1]);
    }
  }

  lemma DefIdsSingle(op: Op)
    ensures DefIds([op]) == DefIdOf(op)
  {
    assert [op][..0] == [];
  }

  /** Two runs over adjacent ranges make one run over both. */
  lemma DefinesRangeAppend(a: seq<Op>, b: seq<Op>, lo: int, mid: int, hi: int)
    requires DefinesRange(a, lo, mid) && DefinesRange(b, mid, hi)
    ensures DefinesRange(a + b, lo, hi)
  {
    DefIdsAppend(a, b);
    var ids := DefIds(a + b);
    forall k | 0 <= k < |ids|
      ensures ids[k] == lo + k
    {
      if k >= mid - lo {
        assert ids[k] == DefIds(b)[k - (mid - lo)];
      }
    }
  }

  /** One more operation: a definition of the next id extends the range, anything else leaves it. */
  lemma DefinesRangeSnoc(a: seq<Op>, op: Op, lo: int, hi: int)
    requires DefinesRange(a, lo, hi)
    requires OpIsDefinition(op) ==> OpTerm(op).id == hi
    ensures DefinesRange(a + [op], lo, if OpIsDefinition(op) then hi + 1 else hi)
  {
    DefIdsAppend(a, [op]);
    DefIdsSingle(op);
  }

  lemma ReadsWithinWiden(op: Op, lo: int, hi: int, lo2: int, hi2: int)
    requires ReadsWithin(op, lo, hi) && lo2 <= lo && hi <= hi2
    ensures ReadsWithin(op, lo2, hi2)
  {
  }

  lemma ReadsDefinedSnoc(a: seq<Op>, op: Op, lo: int)
    requires ReadsDefined(a, lo) && ReadsWithin(op, lo, lo + |DefIds(a)|)
    ensures ReadsDefined(a + [op], lo)
  {
    assert (a + [op])[..|a|] == a;
  }

  /** Reads of a later run stay within the earlier run's definitions and its own. */
  lemma {:induction false} ReadsDefinedAppend(a: seq<Op>, b: seq<Op>, lo: int, mid: int)
    requires ReadsDefined(a, lo) && ReadsDefined(b, mid)
    requires lo <= mid && |DefIds(a)| == mid - lo
    ensures ReadsDefined(a + b, lo)
    decreases |b|
  {
    if |b| == 0 {
      assert a + b == a;
    } else {
      var init := b[..|b| - 1];
      var last := b[|b| - 1];
      assert ReadsDefined(init, mid) && ReadsWithin(last, mid, mid + |DefIds(init)|);
      assert ReadsDefined(a + init, lo) by {
        ReadsDefinedAppend(a, init, lo, mid);
      }
      assert |DefIds(a + init)| == mid - lo + |DefIds(init)| by {
        DefIdsAppend(a, init);
      }
      assert ReadsWithin(last, lo, lo + |DefIds(a + init)|) by {
        ReadsWithinWiden(last, mid, mid + |DefIds(init)|, lo, lo + |DefIds(a + init)|);
      }
      assert a + b == (a + init) + [last];
      ReadsDefinedSnoc(a + init, last, lo);
    }
  }

  /** Appending an operation that reads earlier ids and defines the next one, if any. */
  lemma WellFormedSnoc(a: seq<Op>, op: Op, lo: int, hi: int)
    requires DefinesRange(a, lo, hi) && ReadsDefined(a, lo)
    requires ReadsWithin(op, lo, hi)
    requires OpIsDefinition(op) ==> OpTerm(op).id == hi
    ensures DefinesRange(a + [op], lo, if OpIsDefinition(op) then hi + 1 else hi)
    ensures ReadsDefined(a + [op], lo)
  {
    DefinesRangeSnoc(a, op, lo, hi);
    ReadsDefinedSnoc(a, op, lo);
  }

  /** Operations that define nothing and read earlier ids, appended in a row. */
  lemma {:induction false} ReadersAppend(a: seq<Op>, b: seq<Op>, lo: int, hi: int)
    requires DefinesRange(a, lo, hi) && ReadsDefined(a, lo)
    requires forall i :: 0 <= i < |b| ==> !OpIsDefinition(b[i]) && ReadsWithin(b[i], lo, hi)
    ensures DefinesRange(a + b, lo, hi) && ReadsDefined(a + b, lo)
    decreases |b|
  {
    if |b| == 0 {
      assert a + b == a;
    } else {
      WellFormedSnoc(a, b[0], lo, hi);
      assert forall i :: 0 <= i < |b| - 1 ==> b[1..][i] == b[i + 1];
      ReadersAppend(a + [b[0]], b[1..], lo, hi);
      assert a + [b[0]] + b[1..] == a + b;
    }
  }

  /** A binary operation defines its target and reads its two operands. */
  lemma BinaryReadsWithin(kind: BinaryKind, to: Term, l: Term, r: Term, info: IrInfo, lo: int, hi: int)
    requires lo <= l.id < hi && lo <= r.id < hi
    ensures OpIsDefinition(OfTac(Binary(kind, to, l, r, info)))
    ensures OpTerm(OfTac(Binary(kind, to, l, r, info))) == to
    ensures ReadsWithin(OfTac(Binary(kind, to, l, r, info)), lo, hi)
  {
    assert Reads(OfTac(Binary(kind, to, l, r, info))) == [l, r];
  }

  /** A one-operand operation defines its target and reads its operand. */
  lemma UnaryReadsWithin(kind: UnaryKind, to: Term, t: Term, info: IrInfo, lo: int, hi: int)
    requires lo <= t.id < hi
    ensures OpIsDefinition(OfTac(Unary(kind, to, t, info)))
    ensures OpTerm(OfTac(Unary(kind, to, t, info))) == to
    ensures ReadsWithin(OfTac(Unary(kind, to, t, info)), lo, hi)
  {
    assert Reads(OfTac(Unary(kind, to, t, info))) == [t];
  }

  /** A definition of the next id, reading earlier ones, closes a lowered node. */
  lemma DefinitionSnoc(a: seq<Op>, op: Op, lo: int, hi: int)
    requires DefinesRange(a, lo, hi) && ReadsDefined(a, lo)
    requires OpIsDefinition(op) && OpTerm(op).id == hi && ReadsWithin(op, lo, hi)
    ensures WellFormed(a + [op], lo, hi + 1)
  {
    WellFormedSnoc(a, op, lo, hi);
    assert (a + [op])[|a|] == op;
  }

  /** An operation that defines nothing and reads the node's value keeps the node well formed. */
  lemma ReaderSnoc(a: seq<Op>, op: Op, lo: int, hi: int)
    requires WellFormed(a, lo, hi)
    requires !OpIsDefinition(op) && ReadsWithin(op, lo, hi) && OpTerm(op).id == hi - 1
    ensures WellFormed(a + [op], lo, hi)
  {
    WellFormedSnoc(a, op, lo, hi);
    assert (a + [op])[|a|] == op;
  }

  /** `Print` defines nothing and reads the term it prints. */
  lemma PrintReadsWithin(t: Term, info: IrInfo, lo: int, hi: int)
    requires lo <= t.id < hi
    ensures !OpIsDefinition(Print(t, info)) && OpTerm(Print(t, info)) == t
    ensures ReadsWithin(Print(t, info), lo, hi)
  {
    assert Reads(Print(t, info)) == [t];
  }

  /** Three lowered nodes in a row define and read like one run. */
  lemma WellFormedThree(a: seq<Op>, b: seq<Op>, c: seq<Op>, lo: int, m1: int, m2: int, hi: int)
    requires WellFormed(a, lo, m1) && WellFormed(b, m1, m2) && WellFormed(c, m2, hi)
    ensures DefinesRange(a + b + c, lo, hi) && ReadsDefined(a + b + c, lo)
  {
    DefinesRangeAppend(a, b, lo, m1, m2);
    ReadsDefinedAppend(a, b, lo, m1);
    DefinesRangeAppend(a + b, c, lo, m2, hi);
    ReadsDefinedAppend(a + b, c, lo, m2);
  }

  /** Operations that define nothing, read ids from `lo` up to `hi`, and all write into `t`. */
  predicate ReadersInto(b: seq<Op>, lo: int, hi: int, t: Term)
  {
    forall i :: 0 <= i < |b| ==> !OpIsDefinition(b[i]) && ReadsWithin(b[i], lo, hi) && OpTerm(b[i]) == t
  }

  /**
   * A definition of `hi` that reads nothing, after a run over `lo`, …,
   * `hi - 1`, followed by operations that read and write into it.
   */
  lemma DefinitionThenReaders(a: seq<Op>, def: Op, b: seq<Op>, lo: int, hi: int)
    requires DefinesRange(a, lo, hi) && ReadsDefined(a, lo)
    requires OpIsDefinition(def) && OpTerm(def).id == hi && |Reads(def)| == 0
    requires ReadersInto(b, lo, hi + 1, OpTerm(def))
    ensures WellFormed(a + [def] + b, lo, hi + 1)
  {
    WellFormedSnoc(a, def, lo, hi);
    ReadersAppend(a + [def], b, lo, hi + 1);
    var all := a + [def] + b;
    if |b| > 0 {
      assert all[|all| - 1] == b[|b| - 1];
    } else {
      assert all[|all| - 1] == def;
    }
  }

  /** The parts of a run made of a prefix, one operation and a suffix. */
  lemma SplitAround(a: seq<Op>, x: Op, b: seq<Op>)
    ensures |a + [x] + b| == |a| + 1 + |b|
    ensures (a + [x] + b)[..|a|] == a && (a + [x] + b)[|a|] == x
    ensures (a + [x] + b)[|a| + 1..] == b
  {
  }

  lemma FlattenPair(a: Compose, b: Compose)
    ensures Flatten([a, b]) == a.ops + b.ops
  {
    assert [a, b][1..] == [b];
    FlattenOne(b);
  }

  lemma FlattenOne(a: Compose)
    ensures Flatten([a]) == a.ops
  {
    assert [a][1..] == [];
  }

  /** The empty row is well formed over an empty range. */
  lemma AllWellFormedNil(lo: int)
    ensures AllWellFormed([], lo, lo)
  {
  }

  /** A lowered node in front of lowered nodes that follow it. */
  lemma AllWellFormedCons(c: Compose, rest: seq<Compose>, lo: int, mid: int, hi: int)
    requires WellFormed(c.ops, lo, mid) && AllWellFormed(rest, mid, hi)
    ensures AllWellFormed([c] + rest, lo, hi)
  {
    var cs := [c] + rest;
    assert cs[0] == c && cs[1..] == rest;
    assert Flatten(cs) == c.ops + Flatten(rest);
    DefinesRangeAppend(c.ops, Flatten(rest), lo, mid, hi);
    ReadsDefinedAppend(c.ops, Flatten(rest), lo, mid);
    forall i | 0 <= i < |cs|
      ensures |cs[i].ops| > 0 && lo <= LastId(cs[i].ops) < hi
    {
      if i > 0 {
        assert cs[i] == rest[i - 1];
      }
    }
  }
}
