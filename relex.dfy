/**
 * The peephole pass of `lex/relex/Relex.kt`: it holds up to two tokens and
 * merges `not in` into `NOT_IN` and `is not` into `IS_NOT`.
 */
module Relexing {
  import opened Wrappers
  import opened TokKinds

  /**
   * The merged token for a two-token operator. The source takes the merged
   * lexeme from the source span of both tokens; here the two lexemes are
   * joined by one space.
   */
  function Merge(left: Tok, right: Tok): (r: Option<Tok>)
    ensures r.Some? <==> (left.kind == NOT && right.kind == IN) || (left.kind == IS && right.kind == NOT)
    ensures r.Some? && left.kind == NOT ==> r.value.kind == NOT_IN
    ensures r.Some? && left.kind == IS ==> r.value.kind == IS_NOT
  {
    if left.kind == NOT && right.kind == IN then Some(Combine(left, right, NOT_IN))
    else if left.kind == IS && right.kind == NOT then Some(Combine(left, right, IS_NOT))
    else None
  }

  function Combine(left: Tok, right: Tok, kind: TokKind): Tok
  {
    Tok(kind, left.lexeme + " " + right.lexeme)
  }

  /** What `flush` returns and keeps: the merged token and nothing, or the left token and the right one. */
  function FlushSpec(left: Tok, right: Tok): (r: (Tok, seq<Tok>))
    ensures Merge(left, right).Some? ==> r == (Merge(left, right).value, [])
    ensures Merge(left, right).None? ==> r == (left, [right])
  {
    match Merge(left, right)
    case Some(merged) => (merged, [])
    case None => (left, [right])
  }

  class Relex {
    var peephole: seq<Tok>

    ghost predicate Valid()
      reads this
    {
      |peephole| <= 2
    }

    constructor()
      ensures Valid() && peephole == []
    {
      peephole := [];
    }

    /** `canFlush`: the peephole is full. */
    function CanFlush(): (full: bool)
      reads this
      requires Valid()
      ensures full <==> |peephole| == 2
    {
      |peephole| == 2
    }

    method Push(tok: Tok)
      requires Valid() && |peephole| < 2
      modifies this
      ensures Valid() && peephole == old(peephole) + [tok]
    {
      peephole := peephole + [tok];
    }

    /** Returns the left token, or the merge of both; keeps only the right token unless merged. */
    method Flush() returns (tok: Tok)
      requires Valid() && |peephole| == 2
      modifies this
      ensures Valid() && |peephole| <= 1
      ensures (tok, peephole) == FlushSpec(old(peephole[0]), old(peephole[1]))
    {
      var left, right := peephole[0], peephole[1];
      Drop();
      var merged := Merge(left, right);
      if merged.Some? {
        peephole := [];
        tok := merged.value;
      } else {
        tok := left;
      }
    }

    /** Keeps only the last token. */
    method Drop()
      requires Valid() && |peephole| >= 1
      modifies this
      ensures Valid() && peephole == [old(peephole[|peephole| - 1])]
    {
      peephole := peephole[|peephole| - 1..];
    }
  }

  /** Any pair other than `not in` and `is not` passes the left token through. */
  lemma FlushPassesThrough(left: Tok, right: Tok)
    requires left.kind != NOT && left.kind != IS
    ensures FlushSpec(left, right) == (left, [right])
  {
  }

  /** The merges the unit test relies on. */
  lemma MergeExamples()
    ensures FlushSpec(Tok(NOT, "not"), Tok(IN, "in")) == (Tok(NOT_IN, "not in"), [])
    ensures FlushSpec(Tok(IS, "is"), Tok(NOT, "not")) == (Tok(IS_NOT, "is not"), [])
    ensures FlushSpec(Tok(IS, "is"), Tok(NEWLINE, "\n")).0.kind == IS
  {
    assert "not" + " " + "in" == "not in";
    assert "is" + " " + "not" == "is not";
  }
}
