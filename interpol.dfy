/**
 * The interpolation state machine of `lex/interpol/InterpolState.kt`: the
 * nesting depth of `#{ }` and whether the previous token closed one.
 */
module Interpolation {
  /** The deepest nesting allowed, one per register of the virtual machine. */
  const MaxInterpolDepth: int := 255

  class InterpolState {
    /** `AFTER_INTERPOL` when true, `NORMAL` otherwise. */
    var after: bool
    var depth: int

    constructor()
      ensures !after && depth == 0
    {
      after := false;
      depth := 0;
    }

    function IsInInterpol(): (inside: bool)
      reads this
      ensures inside <==> depth > 0
    {
      depth > 0
    }

    /** Whether the state is `AFTER_INTERPOL`, without changing it. */
    function IsAfterInterpol(): (was: bool)
      reads this
      ensures was <==> after
    {
      after
    }

    /** Reports whether the state was `AFTER_INTERPOL` and returns it to `NORMAL`. */
    method WasInInterpol() returns (was: bool)
      modifies this
      ensures was == old(after) && !after && depth == old(depth)
    {
      was := after;
      Update();
    }

    /** Enters one more interpolation; refuses (the source throws) at the maximum depth. */
    method DeepenInterpol() returns (deepened: bool)
      modifies this
      ensures deepened <==> old(depth) < MaxInterpolDepth
      ensures depth == if deepened then old(depth) + 1 else old(depth)
      ensures after == old(after)
    {
      if depth >= MaxInterpolDepth {
        return false;
      }
      depth := depth + 1;
      return true;
    }

    /** Leaves an interpolation: the state becomes `AFTER_INTERPOL`. */
    method EndInterpol()
      modifies this
      ensures after && depth == old(depth) - 1
    {
      after := true;
      depth := depth - 1;
    }

    method Update()
      modifies this
      ensures !after && depth == old(depth)
    {
      if !after {
        return;
      }
      after := false;
    }
  }
}
