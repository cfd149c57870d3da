/**
 * Two's-complement bit operations on unbounded integers, the semantics of
 * Python's `&`, `|`, `^`, `<<` and `>>`. Kotlin's 32-bit operators are the
 * low 32 bits of the same results (module KotlinInt).
 */
module Bits {

  function Abs(x: int): nat { if x < 0 then -x else x }

  /** 0 and -1 are the two integers whose bits are all equal. */
  predicate IsUniform(x: int) { x == 0 || x == -1 }

  /** The lowest bit. */
  function Low(x: int): (b: int)
    ensures b == 0 || b == 1
  {
    x % 2
  }

  /** Halving rounds toward negative infinity and shrinks every non-uniform integer. */
  lemma HalfShrinks(x: int)
    ensures x == 2 * (x / 2) + Low(x)
    ensures Abs(x / 2) <= Abs(x)
    ensures !IsUniform(x) ==> Abs(x / 2) < Abs(x)
  {
  }

  /** Bitwise AND, one bit at a time from the lowest. */
  function And(a: int, b: int): int
    decreases Abs(a) + Abs(b)
  {
    if IsUniform(a) && IsUniform(b) then
      (if a == -1 && b == -1 then -1 else 0)
    else
      HalfShrinks(a);
      HalfShrinks(b);
      2 * And(a / 2, b / 2) + (if Low(a) == 1 && Low(b) == 1 then 1 else 0)
  }

  /** Bitwise OR. */
  function Or(a: int, b: int): int
    decreases Abs(a) + Abs(b)
  {
    if IsUniform(a) && IsUniform(b) then
      (if a == -1 || b == -1 then -1 else 0)
    else
      HalfShrinks(a);
      HalfShrinks(b);
      2 * Or(a / 2, b / 2) + (if Low(a) == 1 || Low(b) == 1 then 1 else 0)
  }

  /** Bitwise exclusive OR. */
  function Xor(a: int, b: int): int
    decreases Abs(a) + Abs(b)
  {
    if IsUniform(a) && IsUniform(b) then
      (if (a == -1) != (b == -1) then -1 else 0)
    else
      HalfShrinks(a);
      HalfShrinks(b);
      2 * Xor(a / 2, b / 2) + (if Low(a) != Low(b) then 1 else 0)
  }

  /** Every bit of `a` ANDed with itself, and with all ones, is that bit. */
  lemma {:induction false} AndIdentities(a: int)
    ensures And(a, a) == a
    ensures And(a, -1) == a
    ensures And(a, 0) == 0
    decreases Abs(a)
  {
    if !IsUniform(a) {
      HalfShrinks(a);
      AndIdentities(a / 2);
    }
  }

  lemma {:induction false} OrIdentities(a: int)
    ensures Or(a, a) == a
    ensures Or(a, 0) == a
    ensures Or(a, -1) == -1
    decreases Abs(a)
  {
    if !IsUniform(a) {
      HalfShrinks(a);
      OrIdentities(a / 2);
    }
  }

  lemma {:induction false} XorIdentities(a: int)
    ensures Xor(a, a) == 0
    ensures Xor(a, 0) == a
    decreases Abs(a)
  {
    if !IsUniform(a) {
      HalfShrinks(a);
      XorIdentities(a / 2);
    }
  }

  /** The three operators do not depend on the order of their operands. */
  lemma {:induction false} Commutative(a: int, b: int)
    ensures And(a, b) == And(b, a)
    ensures Or(a, b) == Or(b, a)
    ensures Xor(a, b) == Xor(b, a)
    decreases Abs(a) + Abs(b)
  {
    if !(IsUniform(a) && IsUniform(b)) {
      HalfShrinks(a);
      HalfShrinks(b);
      Commutative(a / 2, b / 2);
    }
  }

  function Pow2(k: nat): (p: nat)
    ensures p >= 1
  {
    if k == 0 then 1 else 2 * Pow2(k - 1)
  }

  /** `a << k`: doubling `k` times, which is multiplication by 2^k. */
  function ShiftLeft(a: int, k: nat): (r: int)
    ensures k == 0 ==> r == a
  {
    if k == 0 then a else 2 * ShiftLeft(a, k - 1)
  }

  /** Shifting left is multiplying by a power of two. */
  lemma {:induction false} ShiftLeftIsProduct(a: int, k: nat)
    ensures ShiftLeft(a, k) == a * Pow2(k)
  {
    if k > 0 {
      ShiftLeftIsProduct(a, k - 1);
      assert a * Pow2(k) == 2 * (a * Pow2(k - 1));
    }
  }

  /**
   * `a >> k`: halving `k` times, rounding toward negative infinity, which
   * is floor division by 2^k; the sign is kept and the magnitude never grows.
   */
  function ShiftRight(a: int, k: nat): (r: int)
    ensures ShiftLeft(r, k) <= a < ShiftLeft(r + 1, k)
    ensures a >= 0 ==> 0 <= r <= a
    ensures a < 0 ==> a <= r < 0
    decreases k
  {
    if k == 0 then a
    else
      HalfShrinks(a);
      ShiftRight(a / 2, k - 1)
  }
}
