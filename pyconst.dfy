/**
 * The Python constant folding pass (`nevec/opt/const.py`): an operation
 * whose operands are propagatable literals is evaluated with Python's own
 * operators, the operand symbols are marked propagated, the folded
 * instruction replaces the original, and each operand symbol is offered
 * for elimination.
 */
module PyConstFolding {
  import opened Wrappers
  import opened PyIr
  import Bits
  import Decimal

  // ---------------------------------------------------------------------
  // Python's operators on literal values

  /** `bool` is a subclass of `int`: both take part in integer arithmetic. */
  predicate IsIntLike(v: PyValue) { v.PyInt? || v.PyBool? }

  predicate IsNumber(v: PyValue) { IsIntLike(v) || v.PyFloat? }

  function AsInt(v: PyValue): int
    requires IsIntLike(v)
  {
    if v.PyInt? then v.i else if v.b then 1 else 0
  }

  /** The float an operand becomes when the other operand is a float. */
  function AsDouble(v: PyValue): Double
    requires IsNumber(v)
  {
    if v.PyFloat? then v.f else DoubleOfInt(AsInt(v))
  }

  /** `s * n`: `n` copies of `s`, none when `n` is not positive. */
  function Repeat(s: string, n: int): (r: string)
    ensures |r| == if n <= 0 then 0 else |s| * n
    decreases n
  {
    if n <= 0 then "" else s + Repeat(s, n - 1)
  }

  /** Python's `+`, which is also what `fold_concat` applies. */
  function PyAdd(l: PyValue, r: PyValue): Result<PyValue>
  {
    if IsIntLike(l) && IsIntLike(r) then Ok(PyInt(AsInt(l) + AsInt(r)))
    else if IsNumber(l) && IsNumber(r) then Ok(PyFloat(DoubleArith(Add, AsDouble(l), AsDouble(r))))
    else if l.PyStr? && r.PyStr? then Ok(PyStr(l.s + r.s))
    else Err(TypeError)
  }

  /** The integer operation behind a shift or a bitwise operator. */
  function IntBitwise(op: BinOpKind, a: int, b: int): Result<PyValue>
    requires op in {Shl, Shr, BitAnd, BitXor, BitOr}
  {
    match op
    case Shl => if b < 0 then Err(ValueError) else Ok(PyInt(Bits.ShiftLeft(a, b)))
    case Shr => if b < 0 then Err(ValueError) else Ok(PyInt(Bits.ShiftRight(a, b)))
    case BitAnd => Ok(PyInt(Bits.And(a, b)))
    case BitXor => Ok(PyInt(Bits.Xor(a, b)))
    case BitOr => Ok(PyInt(Bits.Or(a, b)))
  }

  /**
   * The nine operators of `fold_arith`, as Python evaluates them: `/` is
   * true division, shifts and bitwise operators take integers only, and
   * `&`, `^`, `|` of two booleans give a boolean.
   */
  function Arith(host: Host, op: BinOpKind, l: PyValue, r: PyValue): Result<PyValue>
  {
    match op
    case Add => PyAdd(l, r)
    case Sub =>
      if IsIntLike(l) && IsIntLike(r) then Ok(PyInt(AsInt(l) - AsInt(r)))
      else if IsNumber(l) && IsNumber(r) then Ok(PyFloat(DoubleArith(Sub, AsDouble(l), AsDouble(r))))
      else Err(TypeError)
    case Mul =>
      if IsIntLike(l) && IsIntLike(r) then Ok(PyInt(AsInt(l) * AsInt(r)))
      else if IsNumber(l) && IsNumber(r) then Ok(PyFloat(DoubleArith(Mul, AsDouble(l), AsDouble(r))))
      else if l.PyStr? && IsIntLike(r) then Ok(PyStr(Repeat(l.s, AsInt(r))))
      else if IsIntLike(l) && r.PyStr? then Ok(PyStr(Repeat(r.s, AsInt(l))))
      else Err(TypeError)
    case Div =>
      if IsIntLike(l) && IsIntLike(r) then
        if AsInt(r) == 0 then Err(ZeroDivisionError) else Ok(PyFloat(DoubleQuot(AsInt(l), AsInt(r))))
      else if IsNumber(l) && IsNumber(r) then
        if host.isZero(AsDouble(r)) then Err(ZeroDivisionError)
        else Ok(PyFloat(DoubleArith(Div, AsDouble(l), AsDouble(r))))
      else Err(TypeError)
    case Shl => if IsIntLike(l) && IsIntLike(r) then IntBitwise(op, AsInt(l), AsInt(r)) else Err(TypeError)
    case Shr => if IsIntLike(l) && IsIntLike(r) then IntBitwise(op, AsInt(l), AsInt(r)) else Err(TypeError)
    case BitAnd =>
      if l.PyBool? && r.PyBool? then Ok(PyBool(l.b && r.b))
      else if IsIntLike(l) && IsIntLike(r) then IntBitwise(op, AsInt(l), AsInt(r)) else Err(TypeError)
    case BitXor =>
      if l.PyBool? && r.PyBool? then Ok(PyBool(l.b != r.b))
      else if IsIntLike(l) && IsIntLike(r) then IntBitwise(op, AsInt(l), AsInt(r)) else Err(TypeError)
    case BitOr =>
      if l.PyBool? && r.PyBool? then Ok(PyBool(l.b || r.b))
      else if IsIntLike(l) && IsIntLike(r) then IntBitwise(op, AsInt(l), AsInt(r)) else Err(TypeError)
    case _ => Err(NotImplementedError)
  }

  /** Python's `==` on literal values: numbers by value, strings by content, values of other kinds never equal. */
  predicate PyEquals(host: Host, l: PyValue, r: PyValue)
  {
    if IsIntLike(l) && IsIntLike(r) then AsInt(l) == AsInt(r)
    else if IsNumber(l) && IsNumber(r) then host.equal(AsDouble(l), AsDouble(r))
    else if l.PyStr? && r.PyStr? then l.s == r.s
    else l.PyNone? && r.PyNone?
  }

  /** String order: by code point, a proper prefix first. */
  predicate LexLess(a: string, b: string)
  {
    if |a| == 0 then |b| > 0
    else if |b| == 0 then false
    else if a[0] != b[0] then a[0] < b[0]
    else LexLess(a[1..], b[1..])
  }

  /** `<`, `<=`, `>`, `>=`: numbers with numbers, strings with strings, anything else a `TypeError`. */
  function Order(host: Host, op: BinOpKind, l: PyValue, r: PyValue): Result<PyValue>
    requires op in {Lt, Lte, Gt, Gte}
  {
    if IsIntLike(l) && IsIntLike(r) then
      var a, b := AsInt(l), AsInt(r);
      Ok(PyBool(match op case Lt => a < b case Lte => a <= b case Gt => a > b case Gte => a >= b))
    else if IsNumber(l) && IsNumber(r) then
      var a, b := AsDouble(l), AsDouble(r);
      Ok(PyBool(match op
        case Lt => host.less(a, b)
        case Lte => host.less(a, b) || host.equal(a, b)
        case Gt => host.less(b, a)
        case Gte => host.less(b, a) || host.equal(a, b)))
    else if l.PyStr? && r.PyStr? then
      var a, b := l.s, r.s;
      Ok(PyBool(match op
        case Lt => LexLess(a, b)
        case Lte => LexLess(a, b) || a == b
        case Gt => LexLess(b, a)
        case Gte => LexLess(b, a) || a == b))
    else Err(TypeError)
  }

  /** The comparison `fold_comparison` evaluates, taken on the values. */
  function Compare(host: Host, op: BinOpKind, l: PyValue, r: PyValue): Result<PyValue>
  {
    match op
    case Eq => Ok(PyBool(PyEquals(host, l, r)))
    case Neq => Ok(PyBool(!PyEquals(host, l, r)))
    case Lt => Order(host, op, l, r)
    case Lte => Order(host, op, l, r)
    case Gt => Order(host, op, l, r)
    case Gte => Order(host, op, l, r)
    case _ => Err(NotImplementedError)
  }

  /** Unary minus. */
  function Negate(v: PyValue): Result<PyValue>
  {
    if IsIntLike(v) then Ok(PyInt(-AsInt(v)))
    else if v.PyFloat? then Ok(PyFloat(DoubleNeg(v.f)))
    else Err(TypeError)
  }

  /** Python truthiness, which `not` inverts. */
  predicate Truthy(host: Host, v: PyValue)
  {
    match v
    case PyInt(i) => i != 0
    case PyFloat(f) => !host.isZero(f)
    case PyBool(b) => b
    case PyStr(s) => |s| > 0
    case PyNone => false
  }

  /** `str(v)`. */
  function PyStrOf(host: Host, v: PyValue): string
  {
    match v
    case PyInt(i) => Decimal.IntToString(i)
    case PyFloat(f) => host.str(f)
    case PyBool(b) => if b then "True" else "False"
    case PyStr(s) => s
    case PyNone => "None"
  }

  function LowerChar(c: char): char
  {
    if 'A' <= c <= 'Z' then (c as int - 'A' as int + 'a' as int) as char else c
  }

  /** `s.lower()`, on the ASCII letters. */
  function Lower(s: string): (r: string)
    ensures |r| == |s| && forall i :: 0 <= i < |s| ==> r[i] == LowerChar(s[i])
  {
    if |s| == 0 then "" else [LowerChar(s[0])] + Lower(s[1..])
  }

  const FourteenDigits: int := 100_000_000_000_000

  /**
   * `"{:.14g}".format(v)`: an integer of at most fourteen digits is
   * written out in full; a larger one, or a float, is formatted as a float.
   */
  function Format14g(host: Host, v: PyValue): Result<string>
  {
    if IsIntLike(v) then
      var i := AsInt(v);
      if -FourteenDigits < i < FourteenDigits then Ok(Decimal.IntToString(i))
      else Ok(host.format14g(DoubleOfInt(i)))
    else if v.PyFloat? then Ok(host.format14g(v.f))
    else if v.PyStr? then Err(ValueError)
    else Err(TypeError)
  }

  /** The value `fold_show` renders a literal to, by the literal's static type. */
  function ShowValue(host: Host, e: IExpr): Result<PyValue>
    requires IsConst(e)
  {
    match TypeOf(e)
    case Int => var s :- Format14g(host, ValueOf(e)); Ok(PyStr(s))
    case Float => var s :- Format14g(host, ValueOf(e)); Ok(PyStr(s))
    case Bool => Ok(PyStr(Lower(PyStrOf(host, ValueOf(e)))))
    case Str => Ok(ValueOf(e))
    case Str16 => Ok(ValueOf(e))
    case Str32 => Ok(ValueOf(e))
    case _ => Ok(PyStr(host.repr(e)))
  }

  // ---------------------------------------------------------------------
  // Building the folded instruction

  /**
   * `folded` as written: the value's class is tested for `str`, then
   * `int`, then `float`, then `bool`; since a Python `bool` is an `int`,
   * a boolean result becomes an integer literal.
   */
  function FoldedAsWritten(dest: SymId, loc: Loc, ty: PyType, value: PyValue): Result<Instr>
  {
    match value
    case PyStr(s) => Ok(Instr(dest, IStr(s, loc, ty), loc))
    case PyInt(i) => Ok(Instr(dest, IInt(i, loc, ty), loc))
    case PyBool(b) => Ok(Instr(dest, IInt(if b then 1 else 0, loc, ty), loc))
    case PyFloat(f) => Ok(Instr(dest, IFloat(f, loc, ty), loc))
    case PyNone => Err(ValueError)
  }

  /** `folded` with the boolean case reachable: a boolean result becomes a boolean literal. */
  function Folded(dest: SymId, loc: Loc, ty: PyType, value: PyValue): Result<Instr>
  {
    match value
    case PyStr(s) => Ok(Instr(dest, IStr(s, loc, ty), loc))
    case PyInt(i) => Ok(Instr(dest, IInt(i, loc, ty), loc))
    case PyBool(b) => Ok(Instr(dest, IBool(b, loc), loc))
    case PyFloat(f) => Ok(Instr(dest, IFloat(f, loc, ty), loc))
    case PyNone => Err(ValueError)
  }

  /** A fold's effect: the symbols it marked propagated, and the folded instruction or the exception. */
  datatype Outcome = Outcome(marked: set<SymId>, result: Result<Instr>)

  function FoldedFrom(dest: SymId, node: IExpr, v: Result<PyValue>): Result<Instr>
    requires node.IBinOp? || node.IConcat? || node.IUnOp?
  {
    match v
    case Err(e) => Err(e)
    case Ok(x) => Folded(dest, node.loc, node.ty, x)
  }

  /** `fold_num`: the operand must be a literal; it is marked, then negated whatever the operator. */
  function FoldNum(dest: SymId, node: IExpr): Outcome
    requires node.IUnOp?
  {
    var e := node.operand.expr;
    if !IsConst(e) then Outcome({}, Err(AssertionError))
    else Outcome({node.operand.sym}, FoldedFrom(dest, node, Negate(ValueOf(e))))
  }

  /** `fold_bool`: `not`, the test against zero, and the two tests of the static type against nil. */
  function FoldBool(host: Host, dest: SymId, node: IExpr): Outcome
    requires node.IUnOp?
  {
    var e := node.operand.expr;
    if !IsConst(e) then Outcome({}, Err(AssertionError))
    else
      var v := ValueOf(e);
      var result := match node.unOp
        case Not => Ok(PyBool(!Truthy(host, v)))
        case IsZero => Ok(PyBool(PyEquals(host, v, PyInt(0))))
        case IsNil => Ok(PyBool(TypeOf(e) == Nil))
        case IsNotNil => Ok(PyBool(TypeOf(e) != Nil))
        case _ => Err(NotImplementedError);
      Outcome({node.operand.sym}, FoldedFrom(dest, node, result))
  }

  /** `fold_show`. */
  function FoldShow(host: Host, dest: SymId, node: IExpr): Outcome
    requires node.IUnOp?
  {
    var e := node.operand.expr;
    if !IsConst(e) then Outcome({}, Err(AssertionError))
    else Outcome({node.operand.sym}, FoldedFrom(dest, node, ShowValue(host, e)))
  }

  /** `fold_un_op`: dispatch on the operation's result type. */
  function FoldUnOp(host: Host, dest: SymId, node: IExpr): Outcome
    requires node.IUnOp?
  {
    match node.ty
    case Int => FoldNum(dest, node)
    case Float => FoldNum(dest, node)
    case Bool => FoldBool(host, dest, node)
    case Str => FoldShow(host, dest, node)
    case _ => Outcome({}, Err(ValueError))
  }

  /** `propagate_operands`: both operand symbols. */
  function OperandSyms(node: IExpr): set<SymId>
    requires node.IBinOp? || node.IConcat?
  {
    {node.left.sym, node.right.sym}
  }

  /** `fold_arith`: the operands are marked first, then must be literals. */
  function FoldArith(host: Host, dest: SymId, node: IExpr): Outcome
    requires node.IBinOp?
  {
    var l, r := node.left.expr, node.right.expr;
    if !IsConst(l) || !IsConst(r) then Outcome(OperandSyms(node), Err(AssertionError))
    else Outcome(OperandSyms(node), FoldedFrom(dest, node, Arith(host, node.op, ValueOf(l), ValueOf(r))))
  }

  /** `fold_comparison`. */
  function FoldComparison(host: Host, dest: SymId, node: IExpr): Outcome
    requires node.IBinOp?
  {
    var l, r := node.left.expr, node.right.expr;
    if !IsConst(l) || !IsConst(r) then Outcome(OperandSyms(node), Err(AssertionError))
    else Outcome(OperandSyms(node), FoldedFrom(dest, node, Compare(host, node.op, ValueOf(l), ValueOf(r))))
  }

  /** `fold_bin_op`: both operands propagatable; dispatch on the result type. */
  function FoldBinOp(host: Host, isPropagatable: Operand -> bool, dest: SymId, node: IExpr): Outcome
    requires node.IBinOp?
    requires isPropagatable(node.left) && isPropagatable(node.right)
  {
    match node.ty
    case Int => FoldArith(host, dest, node)
    case Float => FoldArith(host, dest, node)
    case Bool => FoldComparison(host, dest, node)
    case _ => Outcome({}, Err(ValueError))
  }

  /** `fold_concat`: Python's `+` on the two literals. */
  function FoldConcat(dest: SymId, node: IExpr): Outcome
    requires node.IConcat?
  {
    var l, r := node.left.expr, node.right.expr;
    if !IsConst(l) || !IsConst(r) then Outcome(OperandSyms(node), Err(AssertionError))
    else Outcome(OperandSyms(node), FoldedFrom(dest, node, PyAdd(ValueOf(l), ValueOf(r))))
  }

  // ---------------------------------------------------------------------
  // What the folds promise

  /**
   * A binary fold marks both operand symbols whenever its result type is
   * one it folds, before it knows whether the fold succeeds; for any other
   * result type it marks nothing and raises `ValueError`.
   */
  lemma BinOpMarksOperands(host: Host, isPropagatable: Operand -> bool, dest: SymId, node: IExpr)
    requires node.IBinOp?
    requires isPropagatable(node.left) && isPropagatable(node.right)
    ensures node.ty in {Int, Float, Bool} ==>
      FoldBinOp(host, isPropagatable, dest, node).marked == {node.left.sym, node.right.sym}
    ensures node.ty !in {Int, Float, Bool} ==>
      FoldBinOp(host, isPropagatable, dest, node) == Outcome({}, Err(ValueError))
    ensures node.ty in {Int, Float} ==> FoldBinOp(host, isPropagatable, dest, node) == FoldArith(host, dest, node)
    ensures node.ty == Bool ==> FoldBinOp(host, isPropagatable, dest, node) == FoldComparison(host, dest, node)
  {
  }

  /**
   * A unary fold dispatches on its result type: numbers are negated,
   * booleans tested, `STR` shown, anything else raises `ValueError`; the
   * operand is marked exactly when the fold reaches it and it is a literal.
   */
  lemma UnOpDispatch(host: Host, dest: SymId, node: IExpr)
    requires node.IUnOp?
    ensures node.ty in {Int, Float} ==> FoldUnOp(host, dest, node) == FoldNum(dest, node)
    ensures node.ty == Bool ==> FoldUnOp(host, dest, node) == FoldBool(host, dest, node)
    ensures node.ty == Str ==> FoldUnOp(host, dest, node) == FoldShow(host, dest, node)
    ensures node.ty !in {Int, Float, Bool, Str} ==> FoldUnOp(host, dest, node) == Outcome({}, Err(ValueError))
    ensures node.ty in {Int, Float, Bool, Str} ==>
      && (IsConst(node.operand.expr) <==> FoldUnOp(host, dest, node).marked == {node.operand.sym})
      && (!IsConst(node.operand.expr) ==> FoldUnOp(host, dest, node) == Outcome({}, Err(AssertionError)))
  {
  }

  /** `fold_num` negates whatever its operator: a `NOT` typed as a number negates too. */
  lemma NumFoldIgnoresOperator(dest: SymId, node: IExpr, i: int, loc: Loc)
    requires node.IUnOp? && node.operand.expr == IInt(i, loc, Int)
    ensures FoldNum(dest, node).result == Ok(Instr(dest, IInt(-i, node.loc, node.ty), node.loc))
  {
  }

  /**
   * `fold_bool`: `NOT` of a boolean literal is its negation, `IS_NIL` and
   * `IS_NOT_NIL` are opposite tests of the literal's static type, and any
   * other operator raises `NotImplementedError` after the operand was marked.
   */
  lemma BoolFoldRules(host: Host, dest: SymId, node: IExpr)
    requires node.IUnOp? && IsConst(node.operand.expr)
    ensures
      var e := node.operand.expr;
      var withOp := (k: UnOpKind) => FoldBool(host, dest, node.(unOp := k)).result;
      && (e.IBool? ==> withOp(Not) == Ok(Instr(dest, IBool(!e.boolValue, node.loc), node.loc)))
      && withOp(IsNil) == Ok(Instr(dest, IBool(TypeOf(e) == Nil, node.loc), node.loc))
      && withOp(IsNotNil) == Ok(Instr(dest, IBool(TypeOf(e) != Nil, node.loc), node.loc))
      && (e.IInt? ==> withOp(IsZero) == Ok(Instr(dest, IBool(e.intValue == 0, node.loc), node.loc)))
      && (node.unOp !in {Not, IsZero, IsNil, IsNotNil} ==>
            FoldBool(host, dest, node) == Outcome({node.operand.sym}, Err(NotImplementedError)))
  {
  }

  /** `IS_ZERO` and `not` agree on integers and booleans: zero is exactly the falsy integer. */
  lemma IsZeroIsFalsy(host: Host, v: PyValue)
    requires IsIntLike(v)
    ensures PyEquals(host, v, PyInt(0)) <==> !Truthy(host, v)
  {
  }

  /**
   * The arithmetic table has exactly nine entries: every other operator
   * raises `NotImplementedError`, and none of the nine does.
   */
  lemma ArithTable(host: Host, op: BinOpKind, l: PyValue, r: PyValue)
    ensures Arith(host, op, l, r) == Err(NotImplementedError) <==>
      op !in {Add, Sub, Mul, Div, Shl, Shr, BitAnd, BitXor, BitOr}
  {
  }

  /**
   * `/` is true division: two integers give a float even when one divides
   * the other, and a zero divisor raises `ZeroDivisionError`.
   */
  lemma TrueDivision(host: Host, a: int, b: int)
    ensures b == 0 ==> Arith(host, Div, PyInt(a), PyInt(b)) == Err(ZeroDivisionError)
    ensures b != 0 ==> Arith(host, Div, PyInt(a), PyInt(b)) == Ok(PyFloat(DoubleQuot(a, b)))
  {
  }

  /** On integers, subtracting what was added gives the first operand back. */
  lemma AddSubRoundTrip(host: Host, a: int, b: int)
    ensures Arith(host, Add, PyInt(a), PyInt(b)).Ok?
    ensures Arith(host, Sub, Arith(host, Add, PyInt(a), PyInt(b)).value, PyInt(b)) == Ok(PyInt(a))
  {
  }

  /** Shifting left by `k` then right by `k` gives the integer back; a negative count raises `ValueError`. */
  lemma ShiftRoundTrip(host: Host, a: int, k: int)
    ensures k < 0 ==> Arith(host, Shl, PyInt(a), PyInt(k)) == Err(ValueError)
    ensures k >= 0 ==> Arith(host, Shl, PyInt(a), PyInt(k)).Ok?
    ensures k >= 0 ==> Arith(host, Shr, Arith(host, Shl, PyInt(a), PyInt(k)).value, PyInt(k)) == Ok(PyInt(a))
  {
    if k >= 0 {
      var s := Bits.ShiftLeft(a, k);
      var r := Bits.ShiftRight(s, k);
      Bits.ShiftLeftIsProduct(a, k);
      Bits.ShiftLeftIsProduct(r, k);
      Bits.ShiftLeftIsProduct(r + 1, k);
      ExactQuotient(a, r, Bits.Pow2(k));
    }
  }

  /** A multiple of a positive number lies between the multiples of one integer only. */
  lemma ExactQuotient(a: int, r: int, p: int)
    requires p >= 1
    requires r * p <= a * p < (r + 1) * p
    ensures r == a
  {
  }

  /** `&`, `^`, `|` of two booleans give the boolean of the same integer operation on 0 and 1. */
  lemma BooleanBitwise(host: Host, x: bool, y: bool)
    ensures Arith(host, BitAnd, PyBool(x), PyBool(y)) == Ok(PyBool(x && y))
    ensures Arith(host, BitXor, PyBool(x), PyBool(y)) == Ok(PyBool(x != y))
    ensures Arith(host, BitOr, PyBool(x), PyBool(y)) == Ok(PyBool(x || y))
    ensures Bits.And(AsInt(PyBool(x)), AsInt(PyBool(y))) == AsInt(PyBool(x && y))
    ensures Bits.Xor(AsInt(PyBool(x)), AsInt(PyBool(y))) == AsInt(PyBool(x != y))
    ensures Bits.Or(AsInt(PyBool(x)), AsInt(PyBool(y))) == AsInt(PyBool(x || y))
  {
    var a, b := AsInt(PyBool(x)), AsInt(PyBool(y));
    assert a / 2 == 0 && b / 2 == 0;
    assert Bits.And(0, 0) == 0 && Bits.Or(0, 0) == 0 && Bits.Xor(0, 0) == 0;
  }

  /** String order is a strict total order. */
  lemma {:induction false} LexLessStrictTotal(a: string, b: string)
    ensures !LexLess(a, a)
    ensures LexLess(a, b) ==> !LexLess(b, a)
    ensures a != b ==> LexLess(a, b) || LexLess(b, a)
  {
    if |a| > 0 && |b| > 0 {
      LexLessStrictTotal(a[1..], b[1..]);
      LexLessStrictTotal(a[1..], a[1..]);
      if a[0] == b[0] && a != b {
        assert a == [a[0]] + a[1..] && b == [b[0]] + b[1..];
      }
    } else if |a| > 0 {
      LexLessStrictTotal(a[1..], a[1..]);
    }
  }

  /** `l < r` is `r > l`, `l <= r` is `r >= l`, and `!=` is the negation of `==`. */
  lemma ComparisonConverse(host: Host, l: PyValue, r: PyValue)
    ensures Compare(host, Lt, l, r) == Compare(host, Gt, r, l)
    ensures Compare(host, Lte, l, r).Ok? <==> Compare(host, Gte, r, l).Ok?
    ensures Compare(host, Neq, l, r) == Ok(PyBool(!Compare(host, Eq, l, r).value.b))
  {
  }

  /** Integers compare by value: exactly one of `<`, `==`, `>` holds. */
  lemma IntTrichotomy(host: Host, a: int, b: int)
    ensures
      var lt := Compare(host, Lt, PyInt(a), PyInt(b)).value.b;
      var eq := Compare(host, Eq, PyInt(a), PyInt(b)).value.b;
      var gt := Compare(host, Gt, PyInt(a), PyInt(b)).value.b;
      (lt <==> a < b) && (eq <==> a == b) && (gt <==> a > b)
  {
  }

  /** Strings compare by content: exactly one of `<`, `==`, `>` holds. */
  lemma StrTrichotomy(host: Host, s: string, t: string)
    ensures Compare(host, Lt, PyStr(s), PyStr(t)).Ok?
    ensures
      var lt := Compare(host, Lt, PyStr(s), PyStr(t)).value.b;
      var eq := Compare(host, Eq, PyStr(s), PyStr(t)).value.b;
      var gt := Compare(host, Gt, PyStr(s), PyStr(t)).value.b;
      && (eq <==> s == t)
      && (lt || eq || gt)
      && !(lt && eq) && !(lt && gt) && !(eq && gt)
  {
    LexLessStrictTotal(s, t);
    LexLessStrictTotal(t, s);
  }

  /** Ordering a string against a number, or nil against anything, raises `TypeError`; `==` says false. */
  lemma MixedComparison(host: Host, s: string, v: PyValue)
    requires IsNumber(v) || v.PyNone?
    ensures Compare(host, Lt, PyStr(s), v) == Err(TypeError)
    ensures Compare(host, Gte, v, PyStr(s)) == Err(TypeError)
    ensures Compare(host, Eq, PyStr(s), v) == Ok(PyBool(false))
  {
  }

  /** `show` renders booleans in lower case. */
  lemma ShowBooleans(host: Host, b: bool, loc: Loc)
    ensures ShowValue(host, IBool(b, loc)) == Ok(PyStr(if b then "true" else "false"))
  {
    if b {
      LowerTrue();
    } else {
      LowerFalse();
    }
  }

  lemma LowerTrue()
    ensures Lower("True") == "true"
  {
    var r := Lower("True");
    assert r[0] == 't' && r[1] == 'r' && r[2] == 'u' && r[3] == 'e';
  }

  lemma LowerFalse()
    ensures Lower("False") == "false"
  {
    var r := Lower("False");
    assert r[0] == 'f' && r[1] == 'a' && r[2] == 'l' && r[3] == 's' && r[4] == 'e';
  }

  /** `show` leaves strings as they are, and a string typed as a number cannot be formatted. */
  lemma ShowStrings(host: Host, e: IExpr)
    requires IsConst(e)
    ensures TypeOf(e) in {Str, Str16, Str32} ==> ShowValue(host, e) == Ok(ValueOf(e))
    ensures e.IStr? && TypeOf(e) in {Int, Float} ==> ShowValue(host, e) == Err(ValueError)
  {
  }

  /** Integers of at most fourteen digits are shown in full, so distinct ones are shown differently. */
  lemma ShowSmallIntsInjective(host: Host, e1: IExpr, e2: IExpr)
    requires e1.IInt? && e2.IInt? && TypeOf(e1) == Int && TypeOf(e2) == Int
    requires -FourteenDigits < e1.intValue < FourteenDigits && -FourteenDigits < e2.intValue < FourteenDigits
    ensures ShowValue(host, e1) == Ok(PyStr(Decimal.IntToString(e1.intValue)))
    ensures ShowValue(host, e1) == ShowValue(host, e2) ==> e1.intValue == e2.intValue
  {
    if ShowValue(host, e1) == ShowValue(host, e2) {
      Decimal.IntToStringInjective(e1.intValue, e2.intValue);
    }
  }

  /** `fold_concat` joins two strings, and adds two integers, since it applies `+` without a type test. */
  lemma ConcatFolds(dest: SymId, node: IExpr)
    requires node.IConcat?
    ensures node.left.expr.IStr? && node.right.expr.IStr? ==>
      FoldConcat(dest, node) == Outcome({node.left.sym, node.right.sym},
        Ok(Instr(dest, IStr(node.left.expr.strValue + node.right.expr.strValue, node.loc, node.ty), node.loc)))
    ensures node.left.expr.IInt? && node.right.expr.IInt? ==>
      FoldConcat(dest, node).result ==
        Ok(Instr(dest, IInt(node.left.expr.intValue + node.right.expr.intValue, node.loc, node.ty), node.loc))
  {
  }

  /**
   * The folded instruction defines the destination symbol at the node's
   * location, and its literal holds the computed value; only `None` has
   * no literal.
   */
  lemma FoldedHoldsValue(dest: SymId, loc: Loc, ty: PyType, v: PyValue)
    ensures Folded(dest, loc, ty, v).Ok? <==> !v.PyNone?
    ensures Folded(dest, loc, ty, v).Ok? ==>
      var i := Folded(dest, loc, ty, v).value;
      && i.sym == dest && i.loc == loc && i.expr.loc == loc
      && IsConst(i.expr) && ValueOf(i.expr) == v
      && (!v.PyBool? ==> TypeOf(i.expr) == ty)
  {
  }

  /**
   * As written, `folded` turns a boolean into an integer literal: the
   * comparison `1 < 2` folds to the literal 1 typed `BOOL`, not to `True`.
   */
  lemma ComparisonFoldsToIntAsWritten(host: Host, dest: SymId, loc: Loc)
    ensures Compare(host, Lt, PyInt(1), PyInt(2)) == Ok(PyBool(true))
    ensures FoldedAsWritten(dest, loc, Bool, PyBool(true)) == Ok(Instr(dest, IInt(1, loc, Bool), loc))
    ensures ValueOf(FoldedAsWritten(dest, loc, Bool, PyBool(true)).value.expr) != PyBool(true)
    ensures Folded(dest, loc, Bool, PyBool(true)) == Ok(Instr(dest, IBool(true, loc), loc))
  {
  }

  /** The two versions differ only on booleans. */
  lemma FoldedAgreesExceptBooleans(dest: SymId, loc: Loc, ty: PyType, v: PyValue)
    ensures !v.PyBool? <==> FoldedAsWritten(dest, loc, ty, v) == Folded(dest, loc, ty, v)
  {
  }

  // ---------------------------------------------------------------------
  // The pass

  /** A `Tac` object, which `ctx.update` rewrites in place. */
  class Tac {
    var sym: SymId
    var expr: IExpr
    var loc: Loc

    constructor (i: Instr)
      ensures Value() == i
    {
      sym, expr, loc := i.sym, i.expr, i.loc;
    }

    function Value(): Instr
      reads this
    {
      Instr(sym, expr, loc)
    }

    /** `update`: this instruction takes the other's symbol, expression and location. */
    method Update(i: Instr)
      modifies this
      ensures Value() == i
    {
      sym, expr, loc := i.sym, i.expr, i.loc;
    }
  }

  /**
   * The pass's state: the instructions emitted so far, the symbols marked
   * propagated, and the symbols offered to `elim_if_dead`, in order.
   */
  class ConstFold {
    const host: Host
    const isPropagatable: Operand -> bool
    var emitted: seq<Tac>
    var marked: set<SymId>
    var deadChecks: seq<SymId>

    constructor (host: Host, isPropagatable: Operand -> bool)
      ensures this.host == host && this.isPropagatable == isPropagatable
      ensures emitted == [] && marked == {} && deadChecks == []
    {
      this.host := host;
      this.isPropagatable := isPropagatable;
      emitted, marked, deadChecks := [], {}, [];
    }

    /** `emit`. */
    method Emit(t: Tac)
      modifies this
      ensures emitted == old(emitted) + [t]
      ensures marked == old(marked) && deadChecks == old(deadChecks)
    {
      emitted := emitted + [t];
    }

    /** `elim_if_dead`, whose body is not part of this model: the call is recorded. */
    method ElimIfDead(s: SymId)
      modifies this
      ensures deadChecks == old(deadChecks) + [s]
      ensures emitted == old(emitted) && marked == old(marked)
    {
      deadChecks := deadChecks + [s];
    }

    /** What a visit promises once it has folded: marks, then on success `ctx` updated, the new instruction emitted, the operands offered. */
    twostate predicate Committed(out: Outcome, operands: seq<SymId>, ctx: Tac, new r: Result<()>)
      reads this, ctx, emitted
    {
      && marked == old(marked) + out.marked
      && (out.result.Err? ==>
            && r == Err(out.result.error)
            && emitted == old(emitted) && deadChecks == old(deadChecks)
            && ctx.Value() == old(ctx.Value()))
      && (out.result.Ok? ==>
            && r == Ok(())
            && ctx.Value() == out.result.value
            && |emitted| == |old(emitted)| + 1
            && emitted[..|old(emitted)|] == old(emitted)
            && fresh(emitted[|old(emitted)|])
            && emitted[|old(emitted)|].Value() == out.result.value
            && deadChecks == old(deadChecks) + operands)
    }

    twostate predicate EmittedUnchanged(ctx: Tac, new r: Result<()>)
      reads this, ctx
    {
      && r == Ok(())
      && emitted == old(emitted) + [ctx]
      && marked == old(marked) && deadChecks == old(deadChecks)
      && ctx.Value() == old(ctx.Value())
    }

    method Commit(out: Outcome, operands: seq<SymId>, ctx: Tac) returns (r: Result<()>)
      modifies this, ctx
      ensures Committed(out, operands, ctx, r)
    {
      marked := marked + out.marked;
      if out.result.Err? {
        return Err(out.result.error);
      }
      ctx.Update(out.result.value);
      var opt := new Tac(out.result.value);
      Emit(opt);
      var i := 0;
      while i < |operands|
        invariant 0 <= i <= |operands|
        invariant deadChecks == old(deadChecks) + operands[..i]
        invariant emitted == old(emitted) + [opt]
        invariant marked == old(marked) + out.marked
        invariant ctx.Value() == out.result.value && opt.Value() == out.result.value
      {
        ElimIfDead(operands[i]);
        i := i + 1;
      }
      assert operands[..i] == operands;
      r := Ok(());
    }

    /** `visit_IBinOp`. */
    method VisitBinOp(node: IExpr, ctx: Tac) returns (r: Result<()>)
      requires node.IBinOp?
      modifies this, ctx
      ensures !isPropagatable(node.left) || !isPropagatable(node.right) ==> EmittedUnchanged(ctx, r)
      ensures isPropagatable(node.left) && isPropagatable(node.right) ==>
        Committed(FoldBinOp(host, isPropagatable, old(ctx.sym), node), [node.left.sym, node.right.sym], ctx, r)
    {
      if !isPropagatable(node.left) || !isPropagatable(node.right) {
        Emit(ctx);
        return Ok(());
      }
      r := Commit(FoldBinOp(host, isPropagatable, ctx.sym, node), [node.left.sym, node.right.sym], ctx);
    }

    /** `visit_IConcat`. */
    method VisitConcat(node: IExpr, ctx: Tac) returns (r: Result<()>)
      requires node.IConcat?
      modifies this, ctx
      ensures !isPropagatable(node.left) || !isPropagatable(node.right) ==> EmittedUnchanged(ctx, r)
      ensures isPropagatable(node.left) && isPropagatable(node.right) ==>
        Committed(FoldConcat(old(ctx.sym), node), [node.left.sym, node.right.sym], ctx, r)
    {
      if !isPropagatable(node.left) || !isPropagatable(node.right) {
        Emit(ctx);
        return Ok(());
      }
      r := Commit(FoldConcat(ctx.sym, node), [node.left.sym, node.right.sym], ctx);
    }

    /** `visit_IUnOp`. */
    method VisitUnOp(node: IExpr, ctx: Tac) returns (r: Result<()>)
      requires node.IUnOp?
      modifies this, ctx
      ensures !isPropagatable(node.operand) ==> EmittedUnchanged(ctx, r)
      ensures isPropagatable(node.operand) ==>
        Committed(FoldUnOp(host, old(ctx.sym), node), [node.operand.sym], ctx, r)
    {
      if !isPropagatable(node.operand) {
        Emit(ctx);
        return Ok(());
      }
      r := Commit(FoldUnOp(host, ctx.sym, node), [node.operand.sym], ctx);
    }
  }
}
