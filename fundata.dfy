/**
 * `ir/data/fun/FunData.kt` and `ir/data/change/Change.kt`: the statistics of
 * a whole function (which terms hold each constant, and the statistics of
 * every term) and the changes optimization passes make to them; also the
 * IR function itself (`IrFun.kt`).
 */
module FunStats {
  import opened Wrappers
  import opened Ir
  import TermChanges
  import TermStats

  /**
   * `constDefMap`, a `HashMap` keyed by `IrConst`: modelled as its entries
   * in insertion order. A lookup or an insertion finds the key equal to the
   * probe under the generated data-class equality, which is `==` here.
   */
  type ConstDefMap = seq<(IrConst, seq<Term>)>

  /** `map[c]`. */
  function Lookup(m: ConstDefMap, c: IrConst): (r: Option<seq<Term>>)
    ensures r.Some? ==> exists i :: 0 <= i < |m| && c == m[i].0 && m[i].1 == r.value
    ensures r.None? ==> forall i :: 0 <= i < |m| ==> c != m[i].0
  {
    if |m| == 0 then None
    else if c == m[0].0 then Some(m[0].1)
    else Lookup(m[1..], c)
  }

  /** `put(k, v)`: replaces the value of the first equal key, or appends. */
  function Put(m: ConstDefMap, k: IrConst, v: seq<Term>): (r: ConstDefMap)
    ensures |r| == |m| || |r| == |m| + 1
  {
    if |m| == 0 then [(k, v)]
    else if k == m[0].0 then [(m[0].0, v)] + m[1..]
    else [m[0]] + Put(m[1..], k, v)
  }

  /** `this + other` on maps: every entry of `other`, in order, put into `this`. */
  function PutAll(m: ConstDefMap, other: ConstDefMap): (r: ConstDefMap)
    ensures |other| == 0 ==> r == m
    ensures |other| == 1 ==> r == Put(m, other[0].0, other[0].1)
    decreases |other|
  {
    if |other| == 0 then m else PutAll(Put(m, other[0].0, other[0].1), other[1..])
  }

  /** A put answers lookups of its own key with the new terms and leaves every other key alone. */
  lemma {:induction false} PutLookup(m: ConstDefMap, k: IrConst, v: seq<Term>, c: IrConst)
    ensures Lookup(Put(m, k, v), c) == if c == k then Some(v) else Lookup(m, c)
  {
    if |m| > 0 {
      if k == m[0].0 {
        assert ([(m[0].0, v)] + m[1..])[1..] == m[1..];
      } else {
        assert ([m[0]] + Put(m[1..], k, v))[1..] == Put(m[1..], k, v);
        PutLookup(m[1..], k, v, c);
      }
    }
  }

  /** Entry `j` holds the first key equal to `k`. */
  predicate FirstEqualAt(m: ConstDefMap, k: IrConst, j: int)
  {
    0 <= j < |m| && k == m[j].0 && forall i :: 0 <= i < j ==> k != m[i].0
  }

  /** A put on a key already present: that entry takes the new terms; nothing else moves. */
  lemma {:induction false} PutReplacesFirst(m: ConstDefMap, k: IrConst, v: seq<Term>, j: int)
    requires FirstEqualAt(m, k, j)
    ensures Put(m, k, v) == m[j := (m[j].0, v)]
  {
    if j > 0 {
      assert k != m[0].0;
      forall i | 0 <= i < j - 1
        ensures k != m[1..][i].0
      {
        assert m[1..][i] == m[i + 1];
      }
      PutReplacesFirst(m[1..], k, v, j - 1);
      assert [m[0]] + m[1..][j - 1 := (m[j].0, v)] == m[j := (m[j].0, v)];
    }
  }

  /** A put on a key not present appends the entry. */
  lemma {:induction false} PutAppends(m: ConstDefMap, k: IrConst, v: seq<Term>)
    requires forall i :: 0 <= i < |m| ==> k != m[i].0
    ensures Put(m, k, v) == m + [(k, v)]
  {
    if |m| > 0 {
      assert k != m[0].0;
      assert forall i :: 0 <= i < |m| - 1 ==> m[1..][i] == m[i + 1];
      PutAppends(m[1..], k, v);
      assert [m[0]] + (m[1..] + [(k, v)]) == m + [(k, v)];
    }
  }

  /** The terms of the last entry whose key equals `c`, which is the one a run of puts leaves in place. */
  function LookupLast(m: ConstDefMap, c: IrConst): (r: Option<seq<Term>>)
    ensures r.None? <==> forall i :: 0 <= i < |m| ==> c != m[i].0
  {
    if |m| == 0 then None
    else
      var later := LookupLast(m[1..], c);
      if later.Some? then later
      else if c == m[0].0 then Some(m[0].1)
      else None
  }

  /**
   * Merging maps, looked up by any key: the right operand's
   * entry wins (the last of its equal entries); a probe it does not hold
   * finds what the left operand holds.
   */
  lemma {:induction false} PutAllLookup(m: ConstDefMap, other: ConstDefMap, c: IrConst)
    ensures Lookup(PutAll(m, other), c) ==
      if LookupLast(other, c).Some? then LookupLast(other, c) else Lookup(m, c)
    decreases |other|
  {
    if |other| > 0 {
      PutAllLookup(Put(m, other[0].0, other[0].1), other[1..], c);
      PutLookup(m, other[0].0, other[0].1, c);
    }
  }

  /** No two entries share a key, as in a `HashMap`. */
  predicate DistinctKeys(m: ConstDefMap)
  {
    forall i, j :: 0 <= i < j < |m| ==> m[i].0 != m[j].0
  }

  /** A put keeps the keys distinct. */
  lemma PutKeepsKeysDistinct(m: ConstDefMap, k: IrConst, v: seq<Term>)
    requires DistinctKeys(m)
    ensures DistinctKeys(Put(m, k, v))
  {
    if j :| 0 <= j < |m| && k == m[j].0 {
      assert FirstEqualAt(m, k, j);
      PutReplacesFirst(m, k, v, j);
    } else {
      PutAppends(m, k, v);
    }
  }

  /** With distinct keys, the last entry for a key is the only one, so it is the one a lookup finds. */
  lemma {:induction false} LookupLastIsLookup(m: ConstDefMap, c: IrConst)
    requires DistinctKeys(m)
    ensures LookupLast(m, c) == Lookup(m, c)
  {
    if |m| > 0 {
      assert DistinctKeys(m[1..]) by {
        forall i, j | 0 <= i < j < |m| - 1
          ensures m[1..][i].0 != m[1..][j].0
        {
          assert m[1..][i] == m[i + 1] && m[1..][j] == m[j + 1];
        }
      }
      LookupLastIsLookup(m[1..], c);
      if c == m[0].0 {
        forall i | 0 <= i < |m| - 1
          ensures c != m[1..][i].0
        {
          assert m[1..][i] == m[i + 1];
        }
      }
    }
  }

  /** Merging a map into another: the right operand's entry wins, and a key it lacks keeps the left operand's entry. */
  lemma MergeLookup(m: ConstDefMap, other: ConstDefMap, c: IrConst)
    requires DistinctKeys(other)
    ensures Lookup(PutAll(m, other), c) == if Lookup(other, c).Some? then Lookup(other, c) else Lookup(m, c)
  {
    PutAllLookup(m, other, c);
    LookupLastIsLookup(other, c);
  }

  /** `list - element`: the list without the first occurrence of the element. */
  function Minus(s: seq<Term>, x: Term): (r: seq<Term>)
    ensures x !in s ==> r == s
    ensures multiset(r) == multiset(s) - multiset{x}
  {
    if |s| == 0 then []
    else if s[0] == x then
      assert s == [s[0]] + s[1..];
      s[1..]
    else
      assert s == [s[0]] + s[1..];
      [s[0]] + Minus(s[1..], x)
  }

  /** Removing an element that was only just appended gives back the list before it. */
  lemma {:induction false} MinusAppended(s: seq<Term>, x: Term)
    requires x !in s
    ensures Minus(s + [x], x) == s
  {
    if |s| > 0 {
      assert (s + [x])[1..] == s[1..] + [x];
      MinusAppended(s[1..], x);
    }
  }

  /** A change to the statistics of a function. */
  datatype Change =
    | ConstChange(constant: IrConst, term: Term)
    | Unconst(constant: IrConst, term: Term)
    | OfTerm(termChange: TermChanges.TermChange)

  /** The statistics of a function. */
  datatype FunData = FunData(constDefMap: ConstDefMap, termData: TermStats.TermData)

  /** `FunData()`: nothing recorded. */
  function EmptyFunData(): FunData
  {
    FunData([], TermStats.New())
  }

  /** `termsUsing`: the terms holding a constant, or none. */
  function TermsUsing(d: FunData, c: IrConst): seq<Term>
  {
    match Lookup(d.constDefMap, c)
    case Some(ts) => ts
    case None => []
  }

  /** `plus`: both maps merged, the right operand winning. */
  function Plus(a: FunData, b: FunData): FunData
  {
    FunData(PutAll(a.constDefMap, b.constDefMap), TermStats.Plus(a.termData, b.termData))
  }

  /** The definition and uses of a term, as the passes query them. */
  function DefOf(d: FunData, t: Term): Option<Op>
  {
    TermStats.StatsOf(d.termData, t.id).def
  }

  function UsesOf(d: FunData, t: Term): seq<Op>
  {
    TermStats.StatsOf(d.termData, t.id).uses
  }

  /** `Change.applyTo`. */
  function ApplyChange(c: Change, previous: FunData): FunData
  {
    match c
    case ConstChange(k, t) =>
      Plus(previous, FunData([(k, TermsUsing(previous, k) + [t])], TermStats.New()))
    case Unconst(k, t) =>
      previous.(constDefMap := PutAll(previous.constDefMap, [(k, Minus(TermsUsing(previous, k), t))]))
    case OfTerm(tc) =>
      Plus(previous, FunData([], TermStats.Update(previous.termData, tc)))
  }

  /**
   * The effect of each change on the terms holding a constant:
   * `Const` appends its term, `Unconst` removes one occurrence of it, a
   * term change touches no constant, and no change touches another key.
   */
  lemma ApplyChangeTermsUsing(ch: Change, d: FunData, c: IrConst)
    ensures ch.ConstChange? && ch.constant == c ==> TermsUsing(ApplyChange(ch, d), c) == TermsUsing(d, c) + [ch.term]
    ensures ch.Unconst? && ch.constant == c ==> TermsUsing(ApplyChange(ch, d), c) == Minus(TermsUsing(d, c), ch.term)
    ensures ch.OfTerm? || ch.constant != c ==> TermsUsing(ApplyChange(ch, d), c) == TermsUsing(d, c)
  {
    match ch
    case ConstChange(k, t) =>
      PutLookup(d.constDefMap, k, TermsUsing(d, k) + [t], c);
    case Unconst(k, t) =>
      PutLookup(d.constDefMap, k, Minus(TermsUsing(d, k), t), c);
    case OfTerm(_) =>
  }

  /** Removing a term right after adding it gives back the terms holding the constant. */
  lemma UnconstUndoesConst(d: FunData, c: IrConst, t: Term)
    requires t !in TermsUsing(d, c)
    ensures TermsUsing(ApplyChange(Unconst(c, t), ApplyChange(ConstChange(c, t), d)), c) == TermsUsing(d, c)
  {
    var d1 := ApplyChange(ConstChange(c, t), d);
    ApplyChangeTermsUsing(ConstChange(c, t), d, c);
    ApplyChangeTermsUsing(Unconst(c, t), d1, c);
    MinusAppended(TermsUsing(d, c), t);
  }

  /** Only term changes touch the term statistics, each as `TermData.update` does. */
  lemma ApplyChangeTermData(ch: Change, d: FunData)
    ensures ch.OfTerm? ==> ApplyChange(ch, d).termData == TermStats.Update(d.termData, ch.termChange)
    ensures !ch.OfTerm? ==> ApplyChange(ch, d).termData == d.termData
  {
    if ch.OfTerm? {
      var u := TermStats.Update(d.termData, ch.termChange);
      assert d.termData.themselves + u.themselves == u.themselves;
    } else if ch.ConstChange? {
      assert d.termData.themselves + map[] == d.termData.themselves;
    }
  }

  /** `updateAll`: the last change is applied first. */
  function UpdateAll(changes: seq<Change>): FunData
  {
    if |changes| == 0 then EmptyFunData() else ApplyChange(changes[0], UpdateAll(changes[1..]))
  }

  /** `termChanges`: each derived term change wrapped. */
  function WrapAll(tcs: seq<TermChanges.TermChange>): (r: seq<Change>)
    ensures |r| == |tcs| && forall i :: 0 <= i < |r| ==> r[i] == OfTerm(tcs[i])
  {
    if |tcs| == 0 then [] else [OfTerm(tcs[0])] + WrapAll(tcs[1..])
  }

  /** `Change.deriveFrom`: a constant also records its term under the constant. */
  function DeriveFrom(op: Op): (r: seq<Change>)
    ensures |r| >= 2
    ensures op.Const? ==> r[0] == ConstChange(op.constant, op.to)
  {
    if op.Const? then [ConstChange(op.constant, OpTerm(op))] + WrapAll(TermChanges.DeriveFrom(op))
    else WrapAll(TermChanges.DeriveFrom(op))
  }

  function ChangesOf(ops: seq<Op>): seq<Change>
  {
    if |ops| == 0 then [] else DeriveFrom(ops[0]) + ChangesOf(ops[1..])
  }

  /** `FunData.from`: the statistics derived from every operation of the blocks. */
  function From(blocks: seq<Block>): FunData
  {
    UpdateAll(ChangesOf(FlattenOps(blocks)))
  }

  /** The changes of a later list are applied before those of an earlier one. */
  function UpdateAllOnto(changes: seq<Change>, d: FunData): FunData
  {
    if |changes| == 0 then d else ApplyChange(changes[0], UpdateAllOnto(changes[1..], d))
  }

  lemma {:induction false} UpdateAllAppend(a: seq<Change>, b: seq<Change>)
    ensures UpdateAll(a + b) == UpdateAllOnto(a, UpdateAll(b))
  {
    if |a| == 0 {
      assert a + b == b;
    } else {
      assert (a + b)[1..] == a[1..] + b;
      UpdateAllAppend(a[1..], b);
    }
  }

  /** Term changes leave the terms holding a constant alone. */
  lemma {:induction false} WrappedKeepTermsUsing(tcs: seq<TermChanges.TermChange>, d: FunData, c: IrConst)
    ensures TermsUsing(UpdateAllOnto(WrapAll(tcs), d), c) == TermsUsing(d, c)
  {
    if |tcs| > 0 {
      assert WrapAll(tcs)[1..] == WrapAll(tcs[1..]);
      WrappedKeepTermsUsing(tcs[1..], d, c);
      ApplyChangeTermsUsing(OfTerm(tcs[0]), UpdateAllOnto(WrapAll(tcs[1..]), d), c);
    }
  }

  /** The terms of the constant operations holding `c`, in program order. */
  function ConstTermsOf(ops: seq<Op>, c: IrConst): seq<Term>
  {
    if |ops| == 0 then []
    else (if ops[0].Const? && ops[0].constant == c then [ops[0].to] else []) + ConstTermsOf(ops[1..], c)
  }

  /**
   * What `FunData.from` records for a constant: the terms set to
   * it, in reverse program order.
   */
  lemma {:induction false} FromOpsTermsUsing(ops: seq<Op>, c: IrConst)
    ensures TermsUsing(UpdateAll(ChangesOf(ops)), c) == TermChanges.Reverse(ConstTermsOf(ops, c))
  {
    if |ops| > 0 {
      FromOpsTermsUsing(ops[1..], c);
      var rest := UpdateAll(ChangesOf(ops[1..]));
      UpdateAllAppend(DeriveFrom(ops[0]), ChangesOf(ops[1..]));
      var tcs := TermChanges.DeriveFrom(ops[0]);
      WrappedKeepTermsUsing(tcs, rest, c);
      var head := if ops[0].Const? && ops[0].constant == c then [ops[0].to] else [];
      TermChanges.ReverseAppend(head, ConstTermsOf(ops[1..], c));
      if ops[0].Const? {
        var cs := DeriveFrom(ops[0]);
        assert cs[1..] == WrapAll(tcs);
        ApplyChangeTermsUsing(cs[0], UpdateAllOnto(WrapAll(tcs), rest), c);
        assert TermChanges.Reverse(head) == head;
      } else {
        assert head == [];
      }
    }
  }

  /**
   * The last term `termsUsing` lists for a constant is the first
   * term set to it in program order: why `ConstReuse.firstTermOf` takes the
   * last one.
   */
  lemma FirstConstTermIsLast(blocks: seq<Block>, c: IrConst)
    ensures |TermsUsing(From(blocks), c)| == |ConstTermsOf(FlattenOps(blocks), c)|
    ensures |ConstTermsOf(FlattenOps(blocks), c)| > 0 ==>
      TermsUsing(From(blocks), c)[|TermsUsing(From(blocks), c)| - 1] == ConstTermsOf(FlattenOps(blocks), c)[0]
  {
    var ts := ConstTermsOf(FlattenOps(blocks), c);
    FromOpsTermsUsing(FlattenOps(blocks), c);
    if |ts| > 0 {
      assert TermChanges.Reverse(ts) == TermChanges.Reverse(ts[1..]) + [ts[0]];
    }
  }

  /** The term changes among a list of changes, in order. */
  function TermPart(cs: seq<Change>): seq<TermChanges.TermChange>
  {
    if |cs| == 0 then []
    else (if cs[0].OfTerm? then [cs[0].termChange] else []) + TermPart(cs[1..])
  }

  lemma {:induction false} TermPartAppend(a: seq<Change>, b: seq<Change>)
    ensures TermPart(a + b) == TermPart(a) + TermPart(b)
  {
    if |a| == 0 {
      assert a + b == b;
    } else {
      var head := if a[0].OfTerm? then [a[0].termChange] else [];
      assert (a + b)[0] == a[0];
      assert (a + b)[1..] == a[1..] + b;
      assert TermPart(a + b) == head + TermPart(a[1..] + b);
      TermPartAppend(a[1..], b);
      assert head + (TermPart(a[1..]) + TermPart(b)) == (head + TermPart(a[1..])) + TermPart(b);
    }
  }

  lemma {:induction false} TermPartWrapped(tcs: seq<TermChanges.TermChange>)
    ensures TermPart(WrapAll(tcs)) == tcs
  {
    if |tcs| > 0 {
      assert WrapAll(tcs)[1..] == WrapAll(tcs[1..]);
      TermPartWrapped(tcs[1..]);
    }
  }

  /** The term statistics of a function follow its term changes alone. */
  lemma {:induction false} UpdateAllTermData(cs: seq<Change>)
    ensures UpdateAll(cs).termData == TermStats.UpdateAll(TermPart(cs))
  {
    if |cs| > 0 {
      var rest := UpdateAll(cs[1..]);
      UpdateAllTermData(cs[1..]);
      assert UpdateAll(cs) == ApplyChange(cs[0], rest);
      ApplyChangeTermData(cs[0], rest);
      if cs[0].OfTerm? {
        assert TermPart(cs) == [cs[0].termChange] + TermPart(cs[1..]);
        assert TermStats.UpdateAll(TermPart(cs))
          == TermStats.Update(TermStats.UpdateAll(TermPart(cs[1..])), cs[0].termChange);
      } else {
        assert TermPart(cs) == [] + TermPart(cs[1..]);
        assert TermPart(cs) == TermPart(cs[1..]);
      }
    }
  }

  lemma {:induction false} TermPartOfChanges(ops: seq<Op>)
    ensures TermPart(ChangesOf(ops)) == TermStats.ChangesOf(ops)
  {
    if |ops| > 0 {
      var tcs := TermChanges.DeriveFrom(ops[0]);
      var head := DeriveFrom(ops[0]);
      assert ChangesOf(ops) == head + ChangesOf(ops[1..]);
      assert TermStats.ChangesOf(ops) == tcs + TermStats.ChangesOf(ops[1..]);
      TermPartOfChanges(ops[1..]);
      TermPartAppend(head, ChangesOf(ops[1..]));
      TermPartWrapped(tcs);
      if ops[0].Const? {
        var c := [ConstChange(ops[0].constant, OpTerm(ops[0]))];
        assert head == c + WrapAll(tcs);
        TermPartAppend(c, WrapAll(tcs));
        assert TermPart(c) == [];
      }
      assert TermPart(head) == tcs;
    }
  }

  /**
   * `FunData.from` keeps the same term statistics as `TermData.from`: each
   * term's definition is its first defining operation and its uses are
   * listed in reverse program order.
   */
  lemma FromTermData(blocks: seq<Block>, t: Term)
    ensures From(blocks).termData == TermStats.From(blocks)
    ensures DefOf(From(blocks), t) == TermStats.FirstDef(FlattenOps(blocks), t.id)
    ensures UsesOf(From(blocks), t) == TermChanges.Reverse(TermStats.UsersOf(FlattenOps(blocks), t.id))
  {
    UpdateAllTermData(ChangesOf(FlattenOps(blocks)));
    TermPartOfChanges(FlattenOps(blocks));
    TermStats.FromStats(blocks, t.id);
  }

  /** An IR function: its mangled name, its blocks and their statistics. */
  datatype IrFun = IrFun(mangledName: string, blocks: seq<Block>, funData: FunData)

  /** `IrFun.from`: a function whose statistics are derived from its blocks. */
  function IrFunFrom(blocks: seq<Block>, name: string): (f: IrFun)
    ensures f.funData == From(blocks) && f.blocks == blocks && f.mangledName == name
  {
    IrFun(name, blocks, From(blocks))
  }

  /** The IR of a module: its functions. */
  datatype IrModule = IrModule(functions: seq<IrFun>)
}
