/**
 * The list-composition helpers the lowering uses to build blocks
 * (`ir/structure/compose`): a `Compose` wraps a list of operations; a
 * `Junction`, a `Viewing` and a `Zipping` hold several of them and produce
 * a `Connection`, a pair of composes merged on demand.
 */
module Composing {
  import opened Wrappers
  import opened Ir

  datatype Compose = Compose(ops: seq<Op>)

  /** `Compose.new`. */
  function New(): (r: Compose)
    ensures |r.ops| == 0
  {
    Compose([])
  }

  /** `Compose.single`. */
  function Single(op: Op): (r: Compose)
    ensures |r.ops| == 1 && r.ops[0] == op
  {
    Compose([op])
  }

  /** `merge`: the receiver's operations, then the argument's. */
  function Merge(a: Compose, b: Compose): Compose
  {
    Compose(a.ops + b.ops)
  }

  /** `then`: the compose with the callback's operation appended. */
  function Then(c: Compose, callback: () -> Op): Compose
  {
    Compose(c.ops + [callback()])
  }

  /** `term`: the term of the last operation; an empty compose has none. */
  function LastTerm(c: Compose): Result<Term>
  {
    if |c.ops| == 0 then Err(NoSuchElementException) else Ok(OpTerm(c.ops[|c.ops| - 1]))
  }

  /** `withLast`: `then`, with the current last term given to the callback. */
  function WithLast(c: Compose, callback: Term -> Op): Result<Compose>
  {
    var t :- LastTerm(c);
    Ok(Then(c, () => callback(t)))
  }

  /** `composes.map(Compose::term)`: the first compose without operations throws. */
  function LastTerms(cs: seq<Compose>): (r: Result<seq<Term>>)
    ensures r.Ok? <==> forall i :: 0 <= i < |cs| ==> |cs[i].ops| > 0
    ensures r.Ok? ==> |r.value| == |cs| && forall i :: 0 <= i < |cs| ==> Ok(r.value[i]) == LastTerm(cs[i])
    ensures r.Err? ==> r.error == NoSuchElementException
  {
    if |cs| == 0 then Ok([])
    else
      var t :- LastTerm(cs[0]);
      var ts :- LastTerms(cs[1..]);
      assert forall i :: 1 <= i < |cs| ==> cs[1..][i - 1] == cs[i];
      Ok([t] + ts)
  }

  /** The operations of all composes, in order. */
  function Flatten(cs: seq<Compose>): seq<Op>
  {
    if |cs| == 0 then [] else cs[0].ops + Flatten(cs[1..])
  }

  /** `reduce(Compose::merge)`: merging from the left, the first compose as the start. */
  function Reduce(cs: seq<Compose>): Compose
    requires |cs| > 0
  {
    if |cs| == 1 then cs[0] else Merge(Reduce(cs[..|cs| - 1]), cs[|cs| - 1])
  }

  /** `reduceOrNull(Compose::merge) ?: Compose.new()`. */
  function ReduceOrNew(cs: seq<Compose>): Compose
  {
    if |cs| == 0 then New() else Reduce(cs)
  }

  /** A pair of composes. */
  datatype Connection = Connection(a: Compose, b: Compose)

  /** `connect`. */
  function Connect(c: Connection): Compose
  {
    Merge(c.a, c.b)
  }

  /** `plugInBetween`. */
  function PlugInBetween(c: Connection, given: Compose): Compose
  {
    Merge(Merge(c.a, given), c.b)
  }

  /** `plugAtFront`. */
  function PlugAtFront(c: Connection, given: Compose): Compose
  {
    Merge(Merge(given, c.a), c.b)
  }

  datatype Junction = Junction(composes: seq<Compose>)

  /** `Compose.join`. */
  function Join(a: Compose, b: Compose): Junction
  {
    Junction([a, b])
  }

  /** `Junction.join`. */
  function JunctionJoin(j: Junction, c: Compose): Junction
  {
    Junction(j.composes + [c])
  }

  /**
   * `Junction.then`: all composes merged, then one operation built from
   * their last terms; no compose at all is an `IllegalArgumentException`.
   */
  function JunctionThen(j: Junction, callback: seq<Term> -> Op): Result<Connection>
  {
    if |j.composes| == 0 then Err(IllegalArgumentException)
    else
      var reduced := Reduce(j.composes);
      var terms :- LastTerms(j.composes);
      Ok(Connection(reduced, Single(callback(terms))))
  }

  datatype Viewing = Viewing(desired: seq<Compose>, viewing: seq<Compose>)

  /** `Compose.viewing`. */
  function ViewingOf(a: Compose, b: Compose): Viewing
  {
    Viewing([a], [b])
  }

  /**
   * `Viewing.then`: only the desired composes are merged, but the callback
   * sees the last terms of both lists; either list empty is an
   * `IllegalArgumentException`.
   */
  function ViewingThen(v: Viewing, callback: seq<Term> -> Op): Result<Connection>
  {
    if |v.desired| == 0 || |v.viewing| == 0 then Err(IllegalArgumentException)
    else
      var reduced := Reduce(v.desired);
      var terms :- LastTerms(v.desired + v.viewing);
      Ok(Connection(reduced, Single(callback(terms))))
  }

  datatype Zipping = Zipping(a: seq<Compose>, b: seq<Compose>)

  /** `zip`: pairs by index, as many as the shorter list has. */
  function Zip(xs: seq<Term>, ys: seq<Term>): (r: seq<(Term, Term)>)
    ensures |r| == if |xs| < |ys| then |xs| else |ys|
    ensures forall i :: 0 <= i < |r| ==> r[i] == (xs[i], ys[i])
  {
    if |xs| == 0 || |ys| == 0 then [] else [(xs[0], ys[0])] + Zip(xs[1..], ys[1..])
  }

  /** `product`: one operation per pair, each its own compose, all merged. */
  function Product(zips: seq<(Term, Term)>, callback: ((Term, Term)) -> Op): Compose
  {
    ReduceOrNew(SinglesOf(zips, callback))
  }

  function SinglesOf(zips: seq<(Term, Term)>, callback: ((Term, Term)) -> Op): (r: seq<Compose>)
    ensures |r| == |zips| && forall i :: 0 <= i < |zips| ==> r[i] == Single(callback(zips[i]))
  {
    if |zips| == 0 then [] else [Single(callback(zips[0]))] + SinglesOf(zips[1..], callback)
  }

  /** `previous`: all of `a` merged, then all of `b`. */
  function Previous(z: Zipping): Compose
  {
    Merge(ReduceOrNew(z.a), ReduceOrNew(z.b))
  }

  /** `each`: the composes, then one operation per pair of last terms. */
  function Each(z: Zipping, callback: ((Term, Term)) -> Op): Result<Connection>
  {
    var ta :- LastTerms(z.a);
    var tb :- LastTerms(z.b);
    Ok(Connection(Previous(z), Product(Zip(ta, tb), callback)))
  }

  // ---------------------------------------------------------------------
  // Properties

  /** Flattening distributes over concatenation. */
  lemma {:induction false} FlattenAppend(xs: seq<Compose>, ys: seq<Compose>)
    ensures Flatten(xs + ys) == Flatten(xs) + Flatten(ys)
  {
    if |xs| == 0 {
      assert xs + ys == ys;
    } else {
      assert (xs + ys)[1..] == xs[1..] + ys;
      FlattenAppend(xs[1..], ys);
    }
  }

  /** Reducing with `merge` concatenates the operations in list order. */
  lemma {:induction false} ReduceFlattens(cs: seq<Compose>)
    requires |cs| > 0
    ensures Reduce(cs).ops == Flatten(cs)
  {
    if |cs| == 1 {
      assert Flatten(cs) == cs[0].ops + Flatten([]);
    } else {
      var init := cs[..|cs| - 1];
      ReduceFlattens(init);
      FlattenAppend(init, [cs[|cs| - 1]]);
      assert init + [cs[|cs| - 1]] == cs;
      assert Flatten([cs[|cs| - 1]]) == cs[|cs| - 1].ops + Flatten([]);
    }
  }

  lemma ReduceOrNewFlattens(cs: seq<Compose>)
    ensures ReduceOrNew(cs).ops == Flatten(cs)
  {
    if |cs| > 0 {
      ReduceFlattens(cs);
    }
  }

  /**
   * `merge` keeps the receiver's operations first, as a prefix, whatever
   * its doc comment says; it is associative and `new` is its identity.
   */
  lemma MergeReceiverFirst(a: Compose, b: Compose, c: Compose)
    ensures Merge(a, b).ops[..|a.ops|] == a.ops && Merge(a, b).ops[|a.ops|..] == b.ops
    ensures Merge(Merge(a, b), c) == Merge(a, Merge(b, c))
    ensures Merge(New(), a) == a && Merge(a, New()) == a
  {
    assert a.ops + b.ops + c.ops == a.ops + (b.ops + c.ops);
    assert a.ops + [] == a.ops && [] + a.ops == a.ops;
  }

  /** The last term of a merge is the argument's, or the receiver's when the argument is empty. */
  lemma MergeLastTerm(a: Compose, b: Compose)
    ensures |b.ops| > 0 ==> LastTerm(Merge(a, b)) == LastTerm(b)
    ensures |b.ops| == 0 ==> LastTerm(Merge(a, b)) == LastTerm(a)
  {
    assert |b.ops| == 0 ==> a.ops + b.ops == a.ops;
  }

  /**
   * `then` appends exactly one operation, whose term becomes the last
   * term; `withLast` gives the callback the last term before the append,
   * and throws on an empty compose.
   */
  lemma ThenAppendsOne(c: Compose, callback: () -> Op, last: Term -> Op)
    ensures |Then(c, callback).ops| == |c.ops| + 1
    ensures Then(c, callback).ops[..|c.ops|] == c.ops
    ensures LastTerm(Then(c, callback)) == Ok(OpTerm(callback()))
    ensures WithLast(c, last).Ok? <==> |c.ops| > 0
    ensures |c.ops| > 0 ==> WithLast(c, last) == Ok(Compose(c.ops + [last(LastTerm(c).value)]))
  {
  }

  /** `single` holds one operation, whose term is the last term; `new` has no last term. */
  lemma SingleAndNew(op: Op)
    ensures LastTerm(Single(op)) == Ok(OpTerm(op))
    ensures LastTerm(New()) == Err(NoSuchElementException)
  {
  }

  /**
   * `Junction.then` throws on an empty junction and on an empty compose;
   * otherwise connecting its result gives all operations in order,
   * followed by the callback's single operation built from the last terms.
   */
  lemma JunctionThenSpec(j: Junction, callback: seq<Term> -> Op)
    ensures |j.composes| == 0 ==> JunctionThen(j, callback) == Err(IllegalArgumentException)
    ensures |j.composes| > 0 ==>
      (JunctionThen(j, callback).Ok? <==> forall i :: 0 <= i < |j.composes| ==> |j.composes[i].ops| > 0)
    ensures JunctionThen(j, callback).Ok? ==>
      var terms := LastTerms(j.composes).value;
      && (forall i :: 0 <= i < |j.composes| ==> Ok(terms[i]) == LastTerm(j.composes[i]))
      && Connect(JunctionThen(j, callback).value).ops == Flatten(j.composes) + [callback(terms)]
  {
    if |j.composes| > 0 {
      ReduceFlattens(j.composes);
    }
  }

  /** `Junction.join` adds one compose at the end. */
  lemma JunctionJoinAppends(j: Junction, c: Compose)
    ensures |JunctionJoin(j, c).composes| == |j.composes| + 1
    ensures JunctionJoin(j, c).composes[|j.composes|] == c
    ensures Flatten(JunctionJoin(j, c).composes) == Flatten(j.composes) + c.ops
  {
    FlattenAppend(j.composes, [c]);
    assert Flatten([c]) == c.ops + Flatten([]);
  }

  /**
   * `Viewing.then` throws when either list is empty; otherwise it merges
   * only the desired composes, and the callback sees the last terms of the
   * desired ones followed by those of the viewed ones.
   */
  lemma ViewingThenSpec(v: Viewing, callback: seq<Term> -> Op)
    ensures |v.desired| == 0 || |v.viewing| == 0 ==> ViewingThen(v, callback) == Err(IllegalArgumentException)
    ensures ViewingThen(v, callback).Ok? ==>
      var terms := LastTerms(v.desired + v.viewing).value;
      && |terms| == |v.desired| + |v.viewing|
      && (forall i :: 0 <= i < |v.desired| ==> Ok(terms[i]) == LastTerm(v.desired[i]))
      && (forall i :: 0 <= i < |v.viewing| ==> Ok(terms[|v.desired| + i]) == LastTerm(v.viewing[i]))
      && Connect(ViewingThen(v, callback).value).ops == Flatten(v.desired) + [callback(terms)]
  {
    if |v.desired| > 0 && |v.viewing| > 0 {
      ReduceFlattens(v.desired);
      var all := v.desired + v.viewing;
      assert forall i :: 0 <= i < |v.viewing| ==> all[|v.desired| + i] == v.viewing[i];
    }
  }

  /**
   * `Zipping.each`: the composes of `a`, then those of `b`, then one
   * operation per pair of last terms, paired by index up to the shorter
   * list; empty lists give empty parts rather than an error.
   */
  lemma EachSpec(z: Zipping, callback: ((Term, Term)) -> Op)
    ensures Each(z, callback).Ok? <==>
      (forall i :: 0 <= i < |z.a| ==> |z.a[i].ops| > 0) && (forall i :: 0 <= i < |z.b| ==> |z.b[i].ops| > 0)
    ensures Each(z, callback).Ok? ==>
      var c := Each(z, callback).value;
      var n := if |z.a| < |z.b| then |z.a| else |z.b|;
      && c.a.ops == Flatten(z.a) + Flatten(z.b)
      && |c.b.ops| == n
      && forall i :: 0 <= i < n ==>
           c.b.ops[i] == callback((LastTerm(z.a[i]).value, LastTerm(z.b[i]).value))
  {
    if Each(z, callback).Ok? {
      var ta := LastTerms(z.a).value;
      var tb := LastTerms(z.b).value;
      ReduceOrNewFlattens(z.a);
      ReduceOrNewFlattens(z.b);
      var singles := SinglesOf(Zip(ta, tb), callback);
      ReduceOrNewFlattens(singles);
      SinglesFlatten(Zip(ta, tb), callback);
    }
  }

  lemma {:induction false} SinglesFlatten(zips: seq<(Term, Term)>, callback: ((Term, Term)) -> Op)
    ensures |Flatten(SinglesOf(zips, callback))| == |zips|
    ensures forall i :: 0 <= i < |zips| ==> Flatten(SinglesOf(zips, callback))[i] == callback(zips[i])
  {
    if |zips| > 0 {
      SinglesFlatten(zips[1..], callback);
      assert SinglesOf(zips, callback)[1..] == SinglesOf(zips[1..], callback);
    }
  }

  /** Two empty lists zip to an empty connection. */
  lemma EachEmpty(callback: ((Term, Term)) -> Op)
    ensures Each(Zipping([], []), callback) == Ok(Connection(New(), New()))
  {
    assert Zip([], []) == [];
    assert SinglesOf([], callback) == [];
    assert Merge(New(), New()) == New();
  }

  /** A connection's three ways of joining: `a` then `b`; `a`, the given compose, `b`; the given compose, `a`, `b`. */
  lemma ConnectionOrders(c: Connection, given: Compose)
    ensures Connect(c).ops == c.a.ops + c.b.ops
    ensures PlugInBetween(c, given).ops == c.a.ops + given.ops + c.b.ops
    ensures PlugAtFront(c, given).ops == given.ops + c.a.ops + c.b.ops
  {
  }
}
