/**
 * The id counters of the lowering stage: `ir/lower/provide/Terms.kt` hands
 * out temporaries and `ir/provide/Blocks.kt` hands out basic blocks, each
 * numbering them 0, 1, 2, … in the order they are asked for.
 */
module Providers {
  import opened Ir
  import Types

  class Terms {
    var nextId: nat

    /** A counter that starts at 0. */
    constructor()
      ensures nextId == 0
    {
      nextId := 0;
    }

    /** `newTemporary`: a term named `"t"` with the next id, which is then used up. */
    method NewTemporary(ty: Types.Type) returns (t: Term)
      modifies this
      ensures t == Term(old(nextId), "t", ty)
      ensures nextId == old(nextId) + 1
    {
      t := Temporary(nextId, ty);
      nextId := nextId + 1;
    }
  }

  class Blocks {
    var nextId: nat

    /** A counter that starts at 0. */
    constructor()
      ensures nextId == 0
    {
      nextId := 0;
    }

    /** `newBasic`: a block named `"bb"` with the next id, holding the given operations. */
    method NewBasic(ops: seq<Op>) returns (b: Block)
      modifies this
      ensures b == Block(old(nextId), "bb", ops)
      ensures nextId == old(nextId) + 1
    {
      b := Basic(nextId, ops);
      nextId := nextId + 1;
    }
  }

  /**
   * Temporaries asked for one after the other are distinct, and the second
   * has the id right after the first's.
   */
  method TwoTemporaries(terms: Terms, a: Types.Type, b: Types.Type) returns (first: Term, second: Term)
    modifies terms
    ensures first.id == old(terms.nextId) && second.id == first.id + 1
    ensures first != second && first.termType == a && second.termType == b
    ensures terms.nextId == old(terms.nextId) + 2
  {
    first := terms.NewTemporary(a);
    second := terms.NewTemporary(b);
  }
}
