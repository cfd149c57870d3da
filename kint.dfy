/**
 * Kotlin `Int` arithmetic as the JVM performs it: 32-bit two's complement,
 * silent wrap-around, division truncating toward zero, shift counts taken
 * modulo 32 and an arithmetic right shift. The constant folder of the IR
 * applies these operators to the values of `IrConst.OfInt`.
 */
module KotlinInt {
  import opened Wrappers
  import Bits

  const Modulus: int := 0x1_0000_0000
  const MinInt: int := -0x8000_0000
  const MaxInt: int := 0x7fff_ffff

  type Int32 = x: int | -0x8000_0000 <= x <= 0x7fff_ffff

  function Abs(x: int): nat { if x < 0 then -x else x }

  /** The `Int` congruent to `x` modulo 2^32: what an overflowing JVM operation yields. */
  function Wrap(x: int): (r: Int32)
    ensures (r - x) % Modulus == 0
    ensures MinInt <= x <= MaxInt ==> r == x
  {
    (x - MinInt) % Modulus + MinInt
  }

  /** `a + b`. */
  function Plus(a: Int32, b: Int32): (r: Int32)
    ensures MinInt <= a + b <= MaxInt ==> r == a + b
    ensures a + b > MaxInt ==> r == a + b - Modulus
    ensures a + b < MinInt ==> r == a + b + Modulus
  {
    Wrap(a + b)
  }

  /** `a - b`. */
  function Minus(a: Int32, b: Int32): (r: Int32)
    ensures MinInt <= a - b <= MaxInt ==> r == a - b
    ensures a - b > MaxInt ==> r == a - b - Modulus
    ensures a - b < MinInt ==> r == a - b + Modulus
  {
    Wrap(a - b)
  }

  /** `a * b`: the low 32 bits of the exact product. */
  function Times(a: Int32, b: Int32): (r: Int32)
    ensures (r - a * b) % Modulus == 0
    ensures MinInt <= a * b <= MaxInt ==> r == a * b
  {
    Wrap(a * b)
  }

  /** Unary `-a`; the one value without a positive counterpart stays as it is. */
  function Negate(a: Int32): (r: Int32)
    ensures a == MinInt ==> r == MinInt
    ensures a != MinInt ==> r == -a
  {
    Wrap(0 - a as int)
  }

  /**
   * Division truncating toward zero, on unbounded integers: the remainder
   * is smaller than the divisor and has the sign of the dividend, and the
   * quotient is no larger than the dividend (smaller when the divisor is).
   */
  function TruncDiv(a: int, b: int): (q: int)
    requires b != 0
    ensures Abs(a - q * b) < Abs(b)
    ensures a - q * b == 0 || (a - q * b < 0 <==> a < 0)
    ensures Abs(q) <= Abs(a)
    ensures Abs(b) >= 2 && a != 0 ==> Abs(q) < Abs(a)
  {
    var n := Abs(a) / Abs(b);
    NaturalQuotient(Abs(a), Abs(b));
    var q := if (a < 0) == (b < 0) then n else -n;
    SignedProduct(q, b, n);
    q
  }

  /** Division of naturals: the remainder identity and how the quotient compares with the dividend. */
  lemma NaturalQuotient(x: nat, y: nat)
    requires y >= 1
    ensures x == (x / y) * y + x % y && 0 <= x % y < y
    ensures 0 <= x / y <= x
    ensures y >= 2 && x > 0 ==> x / y < x
  {
    var k := x / y;
    assert k * y == k * (y - 1) + k;
    assert k >= 0 ==> k * (y - 1) >= 0;
    if y >= 2 {
      assert k * y == k * (y - 2) + 2 * k;
      assert k >= 0 ==> k * (y - 2) >= 0;
    }
  }

  /** A product of signed factors is the product of their magnitudes, with the combined sign. */
  lemma SignedProduct(q: int, b: int, n: int)
    requires n >= 0 && (q == n || q == -n)
    ensures q == n && b >= 0 ==> q * b == n * Abs(b)
    ensures q == n && b < 0 ==> q * b == -(n * Abs(b))
    ensures q == -n && b >= 0 ==> q * b == -(n * Abs(b))
    ensures q == -n && b < 0 ==> q * b == n * Abs(b)
  {
  }

  /** A quotient of two `Int`s fits in an `Int` except for `MIN_VALUE / -1`. */
  lemma QuotientInRange(a: Int32, b: Int32)
    requires b != 0 && !(a == MinInt && b == -1)
    ensures MinInt <= TruncDiv(a, b) <= MaxInt
  {
  }

  /**
   * `a / b`: a zero divisor throws `ArithmeticException`; otherwise the
   * truncated quotient, which overflows only for `MIN_VALUE / -1`.
   */
  function Div(a: Int32, b: Int32): (r: Result<Int32>)
    ensures b == 0 <==> r == Err(ArithmeticException)
    ensures b != 0 && !(a == MinInt && b == -1) ==> r == Ok(TruncDiv(a, b))
    ensures a == MinInt && b == -1 ==> r == Ok(MinInt)
  {
    if b == 0 then Err(ArithmeticException)
    else
      var q := TruncDiv(a, b);
      if a == MinInt && b == -1 then
        Ok(Wrap(q))
      else
        QuotientInRange(a, b);
        Ok(Wrap(q))
  }

  /** `a shl n`: only the low five bits of the count matter. */
  function Shl(a: Int32, n: Int32): (r: Int32)
    ensures (r - Bits.ShiftLeft(a, n % 32)) % Modulus == 0
  {
    Wrap(Bits.ShiftLeft(a, n % 32))
  }

  /** `a shr n`: an arithmetic shift, which rounds toward negative infinity. */
  function Shr(a: Int32, n: Int32): (r: Int32)
    ensures Bits.ShiftLeft(r, n % 32) <= a < Bits.ShiftLeft(r + 1, n % 32)
  {
    Bits.ShiftRight(a, n % 32)
  }

  /** `a and b`: the infinite-precision AND of two `Int`s is already an `Int`. */
  function BitAnd(a: Int32, b: Int32): Int32 { Wrap(Bits.And(a, b)) }

  /** `a or b`. */
  function BitOr(a: Int32, b: Int32): Int32 { Wrap(Bits.Or(a, b)) }

  /** `a xor b`. */
  function BitXor(a: Int32, b: Int32): Int32 { Wrap(Bits.Xor(a, b)) }

  /** The identities of the three bitwise operators hold for every `Int`. */
  lemma BitwiseIdentities(a: Int32)
    ensures BitAnd(a, -1) == a && BitAnd(a, a) == a && BitAnd(a, 0) == 0
    ensures BitOr(a, 0) == a && BitOr(a, a) == a
    ensures BitXor(a, a) == 0 && BitXor(a, 0) == a
  {
    Bits.AndIdentities(a);
    Bits.OrIdentities(a);
    Bits.XorIdentities(a);
  }

  /** The classic overflow cases of 32-bit addition, subtraction and negation. */
  lemma OverflowExamples()
    ensures Plus(MaxInt, 1) == MinInt
    ensures Minus(MinInt, 1) == MaxInt
    ensures Negate(MinInt) == MinInt
  {
  }

  /** Division truncates toward zero, and `MIN_VALUE / -1` overflows back to `MIN_VALUE`. */
  lemma DivisionExamples()
    ensures Div(7, -2) == Ok(-3) && Div(-7, 2) == Ok(-3)
    ensures Div(MinInt, -1) == Ok(MinInt)
    ensures Div(1, 0) == Err(ArithmeticException)
  {
    assert TruncDiv(7, -2) == -3;
    assert TruncDiv(-7, 2) == -3;
  }

  /**
   * Shift counts are taken modulo 32, and the right shift keeps the sign:
   * all ones stays all ones however far it is shifted.
   */
  lemma ShiftFacts(a: Int32, n: Int32)
    ensures Shl(a, 0) == a && Shl(a, 32) == a
    ensures Shr(a, 0) == a && Shr(a, 32) == a
    ensures Shr(-1, n) == -1
    ensures a >= 0 ==> 0 <= Shr(a, n) <= a
    ensures a < 0 ==> a <= Shr(a, n) < 0
  {
  }
}
