/**
 * The constant folding pass of the IR (`opt/passes/ConstFold.kt`): a
 * three-address code whose operands are all defined by constants is
 * replaced by a constant holding its value.
 *
 * Kotlin `assert` is disabled by default, so its assertions have no effect;
 * a failed `as` cast throws `ClassCastException`.
 */
module ConstFolding {
  import opened Wrappers
  import opened Ir
  import opened FunStats
  import opened Canvases
  import opened StringExt
  import KotlinInt
  import Decimal
  import TermChanges

  /** `String.format("%.14g", …)`: how the compiler prints a `Float`, left to the caller. */
  type FloatFormat = Float32 -> string

  /** Every result of a list in order, or the first failure among them. */
  function AllOk(rs: seq<Result<string>>): (r: Result<seq<string>>)
    ensures r.Ok? <==> forall i :: 0 <= i < |rs| ==> rs[i].Ok?
    ensures r.Ok? ==> |r.value| == |rs| && forall i :: 0 <= i < |rs| ==> rs[i] == Ok(r.value[i])
  {
    if |rs| == 0 then Ok([])
    else if rs[0].Err? then Err(rs[0].error)
    else
      var rest :- AllOk(rs[1..]);
      Ok([rs[0].value] + rest)
  }

  /** `joinToString(sep)`: the strings with `sep` between each two. */
  function JoinToString(parts: seq<string>, sep: string): (r: string)
    ensures |parts| == 1 ==> r == parts[0]
  {
    if |parts| == 0 then ""
    else if |parts| == 1 then parts[0]
    else parts[0] + sep + JoinToString(parts[1..], sep)
  }

  /**
   * `foldShowFormat`: how `show` renders a constant. A table renders as its
   * `key: value` pairs between brackets, and the bracket wrapping throws on
   * a table of fewer than two pairs.
   */
  function ShowFormat(fmt: FloatFormat, c: IrConst): Result<string>
    decreases c
  {
    match c
    case OfInt(v) => Ok(Decimal.IntToString(v))
    case OfFloat(f) => Ok(fmt(f))
    case OfStr(s) => Ok(s)
    case OfBool(b) => Ok(if b then "true" else "false")
    case OfNil => Ok("nil")
    case OfEmptyTable => Ok("[:]")
    case OfTable(ks, vs) =>
      var keys :- AllOk(seq(|ks|, i requires 0 <= i < |ks| => ShowFormat(fmt, ks[i])));
      var vals :- AllOk(seq(|vs|, i requires 0 <= i < |vs| => ShowFormat(fmt, vs[i])));
      var n := if |keys| < |vals| then |keys| else |vals|;
      var pairs := seq(n, i requires 0 <= i < n => InfixWith((keys[i], vals[i]), ": "));
      var wrapped :- WrappedInList(pairs, "[", "]");
      Ok(JoinToString(wrapped, ", "))
  }

  /** `foldShow`, `foldNeg` and `foldNot` on the operand's constant. */
  function FoldUnary(fmt: FloatFormat, k: UnaryKind, c: IrConst): Result<IrConst>
  {
    match k
    case Show =>
      var s :- ShowFormat(fmt, c);
      Ok(OfStr(WrappedInQuotes(TrimQuotesAround(s))))
    case Neg =>
      if c.OfInt? then Ok(OfInt(KotlinInt.Negate(c.intValue)))
      else if c.OfFloat? then Ok(OfFloat(FloatNeg(c.floatValue)))
      else Err(IllegalArgumentException)
    case Not =>
      if c.OfBool? then Ok(OfBool(!c.boolValue)) else Err(ClassCastException)
  }

  /** Both operands cast to `OfInt`, in order. */
  function BothInts(a: IrConst, b: IrConst): Result<(KotlinInt.Int32, KotlinInt.Int32)>
  {
    if a.OfInt? && b.OfInt? then Ok((a.intValue, b.intValue)) else Err(ClassCastException)
  }

  /**
   * `foldAdd`, `foldSub`, `foldMul` and `foldDiv`: the left operand decides
   * between `Int` and `Float` and the right one is cast to the same kind;
   * any other left operand throws.
   */
  function FoldArith(k: BinaryKind, a: IrConst, b: IrConst): Result<IrConst>
    requires k.Add? || k.Sub? || k.Mul? || k.Div?
  {
    match a
    case OfInt(x) =>
      if !b.OfInt? then Err(ClassCastException)
      else
        var y := b.intValue;
        (match k
         case Add => Ok(OfInt(KotlinInt.Plus(x, y)))
         case Sub => Ok(OfInt(KotlinInt.Minus(x, y)))
         case Mul => Ok(OfInt(KotlinInt.Times(x, y)))
         case Div =>
           var q :- KotlinInt.Div(x, y);
           Ok(OfInt(q)))
    case OfFloat(x) =>
      if !b.OfFloat? then Err(ClassCastException)
      else
        var y := b.floatValue;
        Ok(OfFloat(match k
          case Add => FloatAdd(x, y)
          case Sub => FloatSub(x, y)
          case Mul => FloatMul(x, y)
          case Div => FloatDiv(x, y)))
    case _ => Err(IllegalArgumentException)
  }

  /** The two-operand folds, each on the constants of the two operands. */
  function FoldBinary(k: BinaryKind, a: IrConst, b: IrConst): Result<IrConst>
  {
    match k
    case Eq => Ok(OfBool(a == b))
    case Neq => Ok(OfBool(a != b))
    case Gt => var (x, y) :- BothInts(a, b); Ok(OfBool(x > y))
    case Gte => var (x, y) :- BothInts(a, b); Ok(OfBool(x >= y))
    case Lt => var (x, y) :- BothInts(a, b); Ok(OfBool(x < y))
    case Lte => var (x, y) :- BothInts(a, b); Ok(OfBool(x <= y))
    case BitAnd => var (x, y) :- BothInts(a, b); Ok(OfInt(KotlinInt.BitAnd(x, y)))
    case BitOr => var (x, y) :- BothInts(a, b); Ok(OfInt(KotlinInt.BitOr(x, y)))
    case BitXor => var (x, y) :- BothInts(a, b); Ok(OfInt(KotlinInt.BitXor(x, y)))
    case Shl => var (x, y) :- BothInts(a, b); Ok(OfInt(KotlinInt.Shl(x, y)))
    case Shr => var (x, y) :- BothInts(a, b); Ok(OfInt(KotlinInt.Shr(x, y)))
    case Concat =>
      if a.OfStr? && b.OfStr? then
        Ok(OfStr(WrappedInQuotes(TrimQuotesAround(a.strValue) + TrimQuotesAround(b.strValue))))
      else Err(ClassCastException)
    case Add => FoldArith(k, a, b)
    case Sub => FoldArith(k, a, b)
    case Mul => FoldArith(k, a, b)
    case Div => FoldArith(k, a, b)
  }

  /**
   * `newConst`: a constant operation with the code's receiver and line,
   * replacing the code, with the changes such an operation derives.
   */
  function NewConst(from: Tac, c: IrConst): (t: Transform)
    ensures t.Replace? && t.newOp == Const(from.to, c, from.info)
    ensures t.changes == FunStats.DeriveFrom(t.newOp)
  {
    var constOp := Const(from.to, c, from.info);
    Replace(constOp, FunStats.DeriveFrom(constOp))
  }

  /**
   * `withChange`, which `Transform.kt` does not declare: a change added
   * to the end of a replacement's changes; a retained operation carries none.
   */
  function WithChange(t: Transform, c: Change): (r: Transform)
    ensures t.Retain? ==> r == t
    ensures t.Replace? ==> r == Replace(t.newOp, t.changes + [c])
  {
    match t
    case Retain(_) => t
    case Replace(n, cs) => Replace(n, cs + [c])
  }

  /** `constFold`: the fold of the code on the constants defining its operands. */
  function ConstFold(fmt: FloatFormat, tac: Tac, defs: seq<Op>): Result<Transform>
    requires |defs| > 0 && forall d :: d in defs ==> d.Const?
  {
    match tac
    case TableSet(_, _, _, _) => Err(IllegalArgumentException)
    case Unary(k, _, _, _) =>
      var folded :- FoldUnary(fmt, k, defs[0].constant);
      Ok(NewConst(tac, folded))
    case Binary(k, _, _, _, _) =>
      if |defs| < 2 then Err(IllegalArgumentException)
      else
        var folded :- FoldBinary(k, defs[0].constant, defs[1].constant);
        Ok(NewConst(tac, folded))
  }

  /** `operands.mapNotNull { data.defOf(it) }`: the known definitions of the terms, in order. */
  function Defs(data: FunData, operands: seq<Term>): (r: seq<Op>)
    ensures |r| <= |operands|
    ensures forall d :: d in r ==> exists t :: t in operands && DefOf(data, t) == Some(d)
  {
    if |operands| == 0 then []
    else
      var rest := Defs(data, operands[1..]);
      match DefOf(data, operands[0])
      case Some(d) => [d] + rest
      case None => rest
  }

  /** `isTableFoldable`: no `TableSet` uses the table's term. */
  predicate IsTableFoldable(def: Op, data: FunData)
  {
    forall u :: u in UsesOf(data, OpTerm(def)) ==> !(u.OfTac? && u.tac.TableSet?)
  }

  /** `isFoldable`: a constant, and if a table one, a table nothing sets entries of. */
  predicate IsFoldable(def: Op, data: FunData)
  {
    && def.Const?
    && (def.constant.OfTable? || def.constant.OfEmptyTable? ==> IsTableFoldable(def, data))
  }

  /** `areFoldable`: at least one definition, and each of them foldable. */
  predicate AreFoldable(defs: seq<Op>, data: FunData)
  {
    |defs| > 0 && forall d :: d in defs ==> IsFoldable(d, data)
  }

  /** `constFoldIfPossible`: the fold, or the code retained when its operands are not all foldable constants. */
  function ConstFoldIfPossible(fmt: FloatFormat, tac: Tac, data: FunData): Result<Transform>
  {
    var defs := Defs(data, Operands(OfTac(tac)));
    if !AreFoldable(defs, data) then Ok(Retain(OfTac(tac)))
    else ConstFold(fmt, tac, defs)
  }

  /** `isArith`: every three-address code but `TableSet`. */
  predicate IsArith(op: Op)
  {
    op.OfTac? && !op.tac.TableSet?
  }

  /**
   * The callback of `apply`: a folded code also records that it no longer
   * uses its operands.
   */
  function Callback(fmt: FloatFormat, data: FunData, op: Op): Result<Transform>
  {
    if IsArith(op) then
      var t :- ConstFoldIfPossible(fmt, op.tac, data);
      Ok(WithChange(t, OfTerm(TermChanges.Unuse(Operands(op), op))))
    else Ok(Retain(op))
  }

  /** `apply`: the callback over every operation of the canvas. */
  function Apply(fmt: FloatFormat, c: Canvas): Result<Canvas>
  {
    EachOp(c, (data, op) => Callback(fmt, data, op))
  }

  /**
   * What the pass does to one operation: anything but a foldable code is
   * retained as it is; a code is replaced only when every operand has a
   * foldable constant definition, and then by a constant with the code's
   * receiver and line, whose changes end with the release of the operands.
   */
  lemma CallbackDecides(fmt: FloatFormat, data: FunData, op: Op)
    ensures !IsArith(op) ==> Callback(fmt, data, op) == Ok(Retain(op))
    ensures IsArith(op) && !AreFoldable(Defs(data, Operands(op)), data) ==> Callback(fmt, data, op) == Ok(Retain(op))
    ensures Callback(fmt, data, op).Ok? && Callback(fmt, data, op).value.Retain? ==>
      Callback(fmt, data, op).value.retained == op
    ensures Callback(fmt, data, op).Ok? && Callback(fmt, data, op).value.Replace? ==>
      && IsArith(op)
      && AreFoldable(Defs(data, Operands(op)), data)
      && Callback(fmt, data, op).value.newOp == Const(op.tac.to, Callback(fmt, data, op).value.newOp.constant, op.tac.info)
      && |Callback(fmt, data, op).value.changes| > 0
      && Callback(fmt, data, op).value.changes[|Callback(fmt, data, op).value.changes| - 1]
        == OfTerm(TermChanges.Unuse(Operands(op), op))
  {
    if IsArith(op) {
      assert OfTac(op.tac) == op;
    }
  }

  /** A table whose term some `TableSet` uses is not foldable, whatever it holds. */
  lemma SetTableNotFoldable(def: Op, data: FunData, u: Op)
    requires def.Const? && (def.constant.OfTable? || def.constant.OfEmptyTable?)
    requires u in UsesOf(data, OpTerm(def)) && u.OfTac? && u.tac.TableSet?
    ensures !IsFoldable(def, data)
  {
  }

  /**
   * Equality folds by the generated `IrConst` equality: `==` and `!=`
   * always fold and always disagree, and `==` holds exactly for equal
   * constants, so a table never equals a longer table that extends it.
   */
  lemma EqualityFolds(a: IrConst, b: IrConst)
    ensures FoldBinary(Eq, a, b).Ok? && FoldBinary(Neq, a, b).Ok?
    ensures FoldBinary(Eq, a, b).value.boolValue != FoldBinary(Neq, a, b).value.boolValue
    ensures FoldBinary(Eq, a, b) == Ok(OfBool(true)) <==> a == b
    ensures a.OfTable? && b.OfTable? && |a.keys| != |b.keys| ==> FoldBinary(Eq, a, b) == Ok(OfBool(false))
  {
  }

  /**
   * Comparisons fold only on two `Int`s, to the `Bool` of the comparison:
   * `a > b` is `b < a`, and `a >= b` is the negation of `a < b`.
   */
  lemma ComparisonFolds(a: IrConst, b: IrConst)
    requires a.OfInt? && b.OfInt?
    ensures FoldBinary(Gt, a, b) == Ok(OfBool(a.intValue > b.intValue))
    ensures FoldBinary(Gt, a, b) == FoldBinary(Lt, b, a)
    ensures FoldBinary(Gte, a, b) == Ok(OfBool(!FoldBinary(Lt, a, b).value.boolValue))
    ensures FoldBinary(Lte, a, b) == FoldBinary(Gte, b, a)
  {
  }

  /** Comparisons and bitwise operators on anything but two `Int`s fail their cast. */
  lemma IntOnlyKindErrors(a: IrConst, b: IrConst)
    requires !(a.OfInt? && b.OfInt?)
    ensures forall k :: k in {Gt, Gte, Lt, Lte, BitAnd, BitOr, BitXor, Shl, Shr} ==> FoldBinary(k, a, b) == Err(ClassCastException)
  {
  }

  /**
   * Integer arithmetic folds with 32-bit wrap-around and truncating
   * division; a zero divisor throws `ArithmeticException`, and so the
   * division is left to run time.
   */
  lemma IntArithmeticFolds(x: KotlinInt.Int32, y: KotlinInt.Int32)
    ensures KotlinInt.MinInt <= x + y <= KotlinInt.MaxInt ==> FoldBinary(Add, OfInt(x), OfInt(y)) == Ok(OfInt(x + y))
    ensures x + y > KotlinInt.MaxInt ==> FoldBinary(Add, OfInt(x), OfInt(y)) == Ok(OfInt(x + y - KotlinInt.Modulus))
    ensures KotlinInt.MinInt <= x - y <= KotlinInt.MaxInt ==> FoldBinary(Sub, OfInt(x), OfInt(y)) == Ok(OfInt(x - y))
    ensures FoldBinary(Mul, OfInt(x), OfInt(y)).Ok?
    ensures y == 0 <==> FoldBinary(Div, OfInt(x), OfInt(y)) == Err(ArithmeticException)
    ensures y != 0 && !(x == KotlinInt.MinInt && y == -1) ==>
      FoldBinary(Div, OfInt(x), OfInt(y)) == Ok(OfInt(KotlinInt.TruncDiv(x, y)))
  {
  }

  /**
   * Arithmetic on mismatched kinds fails: a right operand of another kind
   * than an `Int` or `Float` left one fails its cast, and any other left
   * operand throws `IllegalArgumentException`.
   */
  lemma ArithmeticKindErrors(k: BinaryKind, a: IrConst, b: IrConst)
    requires k.Add? || k.Sub? || k.Mul? || k.Div?
    ensures a.OfInt? && !b.OfInt? ==> FoldBinary(k, a, b) == Err(ClassCastException)
    ensures a.OfFloat? && !b.OfFloat? ==> FoldBinary(k, a, b) == Err(ClassCastException)
    ensures !a.OfInt? && !a.OfFloat? ==> FoldBinary(k, a, b) == Err(IllegalArgumentException)
    ensures a.OfFloat? && b.OfFloat? ==> FoldBinary(k, a, b).Ok? && FoldBinary(k, a, b).value.OfFloat?
  {
  }

  /**
   * Concatenation strips the outer quotes of both strings and wraps the
   * joined text in exactly one pair; two quoted strings give the quoted
   * concatenation of their contents.
   */
  lemma ConcatFolds(a: IrConst, b: IrConst)
    requires a.OfStr? && b.OfStr?
    ensures FoldBinary(Concat, a, b).Ok? && FoldBinary(Concat, a, b).value.OfStr?
    ensures
      var r := FoldBinary(Concat, a, b).value.strValue;
      && |r| >= 2 && r[0] == Quote && r[|r| - 1] == Quote
      && r[1..|r| - 1] == TrimQuotesAround(a.strValue) + TrimQuotesAround(b.strValue)
  {
  }

  lemma ConcatQuoted(s: string, t: string)
    ensures FoldBinary(Concat, OfStr(WrappedInQuotes(s)), OfStr(WrappedInQuotes(t))) == Ok(OfStr(WrappedInQuotes(s + t)))
  {
    TrimWrappedInQuotes(s);
    TrimWrappedInQuotes(t);
  }

  /**
   * Negation and logical not undo themselves on the constants they fold;
   * `not` throws on anything but a `Bool`, negation on anything but a number.
   */
  lemma UnaryFolds(fmt: FloatFormat, c: IrConst)
    ensures c.OfInt? ==>
      && FoldUnary(fmt, Neg, c).Ok?
      && FoldUnary(fmt, Neg, FoldUnary(fmt, Neg, c).value) == Ok(c)
    ensures c.OfBool? ==>
      && FoldUnary(fmt, Not, c).Ok?
      && FoldUnary(fmt, Not, FoldUnary(fmt, Not, c).value) == Ok(c)
    ensures !c.OfBool? ==> FoldUnary(fmt, Not, c) == Err(ClassCastException)
    ensures !c.OfInt? && !c.OfFloat? ==> FoldUnary(fmt, Neg, c) == Err(IllegalArgumentException)
  {
  }

  /**
   * `show` yields a quoted rendering: a quoted string stays as it is, an
   * `Int` gets its decimal digits quoted, and an empty table `"[:]"`.
   */
  lemma ShowFolds(fmt: FloatFormat, s: string, x: KotlinInt.Int32)
    ensures FoldUnary(fmt, Show, OfStr(WrappedInQuotes(s))) == Ok(OfStr(WrappedInQuotes(s)))
    ensures FoldUnary(fmt, Show, OfInt(x)) == Ok(OfStr(WrappedInQuotes(Decimal.IntToString(x))))
  {
    TrimWrappedInQuotes(s);
    DecimalUnquoted(x);
    TrimUnquoted(Decimal.IntToString(x));
  }

  /** An empty table shows as `"[:]"`. */
  lemma ShowEmptyTable(fmt: FloatFormat)
    ensures FoldUnary(fmt, Show, OfEmptyTable) == Ok(OfStr("\"[:]\""))
  {
    TrimUnquoted("[:]");
    assert WrappedInQuotes("[:]") == "\"[:]\"";
  }

  /** A string that neither starts nor ends with a quote is left as it is by the trimming. */
  lemma TrimUnquoted(s: string)
    requires |s| > 0 && s[0] != Quote && s[|s| - 1] != Quote
    ensures TrimQuotesAround(s) == s
  {
    assert !IsIdentityWithQuotes(s);
  }

  /** The decimal rendering of an integer starts with a sign or a digit and ends with a digit. */
  lemma DecimalUnquoted(x: int)
    ensures |Decimal.IntToString(x)| > 0
    ensures Decimal.IntToString(x)[0] != Quote && Decimal.IntToString(x)[|Decimal.IntToString(x)| - 1] != Quote
  {
    var d := Decimal.IntToString(x);
    if x < 0 {
      var n := Decimal.NatToString(-x);
      assert d == "-" + n;
      assert d[|d| - 1] == n[|n| - 1];
    }
  }

  /** A table of no pairs cannot be shown: `first()` throws on the empty list of pairs. */
  lemma ShowEmptyPairs(fmt: FloatFormat)
    ensures ShowFormat(fmt, OfTable([], [])) == Err(NoSuchElementException)
  {
  }

  /** A table of one pair cannot be shown either: the bracket wrapping throws on a single element. */
  lemma ShowOnePair(fmt: FloatFormat)
    ensures ShowFormat(fmt, OfTable([OfNil], [OfBool(true)])) == Err(IllegalArgumentException)
  {
    var one := OfTable([OfNil], [OfBool(true)]);
    var ks := seq(1, i requires 0 <= i < 1 => ShowFormat(fmt, one.keys[i]));
    var vs := seq(1, i requires 0 <= i < 1 => ShowFormat(fmt, one.vals[i]));
    assert ks[0] == Ok("nil");
    assert vs[0] == Ok("true");
    assert AllOk(ks).value == ["nil"];
    assert AllOk(vs).value == ["true"];
  }

  /** Folding a code keeps the receiver and the line, and records the new constant's own changes. */
  lemma FoldedOperation(fmt: FloatFormat, tac: Tac, defs: seq<Op>)
    requires |defs| > 0 && forall d :: d in defs ==> d.Const?
    ensures tac.TableSet? ==> ConstFold(fmt, tac, defs) == Err(IllegalArgumentException)
    ensures tac.Binary? && |defs| < 2 ==> ConstFold(fmt, tac, defs) == Err(IllegalArgumentException)
    ensures ConstFold(fmt, tac, defs).Ok? ==>
      && ConstFold(fmt, tac, defs).value.Replace?
      && ConstFold(fmt, tac, defs).value.newOp.Const?
      && ConstFold(fmt, tac, defs).value.newOp.to == tac.to
      && ConstFold(fmt, tac, defs).value.newOp.info == tac.info
      && ConstFold(fmt, tac, defs).value.changes[0] == ConstChange(ConstFold(fmt, tac, defs).value.newOp.constant, tac.to)
  {
  }
}
