/**
 * The instructions the Python optimizer works on. `nevec/ir/ir.py` is not
 * part of this model; these declarations hold only what
 * `nevec/opt/const.py` reads and builds: three-address instructions
 * (`Tac`) whose expression is a literal (`IInt`, `IFloat`, `IBool`,
 * `IStr`, a nil literal), a binary or unary operation, or a concatenation,
 * each carrying its source location and static type.
 */
module PyIr {

  /** The handle of a symbol in the symbol table. */
  type SymId = nat

  /** A source location. */
  datatype Loc = Loc(line: nat, column: nat)

  /** The static types the pass tests for; `OtherType` is every other one. */
  datatype PyType = Int | Float | Bool | Str | Str16 | Str32 | Nil | OtherType(name: string)

  /**
   * A Python `float`, kept symbolic: a literal, an integer converted, a
   * true quotient of two integers, or an operation on floats.
   */
  datatype Double =
    | DoubleLit(value: real)
    | DoubleOfInt(i: int)
    | DoubleQuot(dividend: int, divisor: int)
    | DoubleNeg(operand: Double)
    | DoubleArith(op: BinOpKind, left: Double, right: Double)

  /** The values a literal holds. */
  datatype PyValue = PyInt(i: int) | PyFloat(f: Double) | PyBool(b: bool) | PyStr(s: string) | PyNone

  datatype BinOpKind =
    | Add | Sub | Mul | Div | Shl | Shr | BitAnd | BitXor | BitOr
    | Eq | Neq | Lt | Lte | Gt | Gte
    | OtherBinOp(name: string)

  datatype UnOpKind = Neg | Not | IsZero | IsNil | IsNotNil | Show | OtherUnOp(name: string)

  /** An operand: the symbol it names and the expression defining that symbol. */
  datatype Operand = Operand(sym: SymId, expr: IExpr)

  datatype IExpr =
    | IInt(intValue: int, loc: Loc, ty: PyType)
    | IFloat(floatValue: Double, loc: Loc, ty: PyType)
    | IBool(boolValue: bool, loc: Loc)
    | IStr(strValue: string, loc: Loc, ty: PyType)
    | INil(loc: Loc)
    | IBinOp(op: BinOpKind, left: Operand, right: Operand, loc: Loc, ty: PyType)
    | IConcat(left: Operand, right: Operand, loc: Loc, ty: PyType)
    | IUnOp(unOp: UnOpKind, operand: Operand, loc: Loc, ty: PyType)
    | IOther(loc: Loc, ty: PyType)

  /** Whether the expression is a literal (`isinstance(e, IConst)`). */
  predicate IsConst(e: IExpr)
  {
    e.IInt? || e.IFloat? || e.IBool? || e.IStr? || e.INil?
  }

  /** `e.value` of a literal. */
  function ValueOf(e: IExpr): (v: PyValue)
    requires IsConst(e)
    ensures e.IStr? <==> v.PyStr?
    ensures e.INil? <==> v.PyNone?
  {
    match e
    case IInt(i, _, _) => PyInt(i)
    case IFloat(f, _, _) => PyFloat(f)
    case IBool(b, _) => PyBool(b)
    case IStr(s, _, _) => PyStr(s)
    case INil(_) => PyNone
  }

  /** `e.type`: literals of booleans and of nil have their own type. */
  function TypeOf(e: IExpr): (t: PyType)
    ensures e.IBool? ==> t == Bool
    ensures e.INil? ==> t == Nil
  {
    match e
    case IBool(_, _) => Bool
    case INil(_) => Nil
    case _ => e.ty
  }

  /** A three-address instruction: the symbol it defines, its expression, its location. */
  datatype Instr = Instr(sym: SymId, expr: IExpr, loc: Loc)

  /**
   * The float behaviour the pass depends on, which is IEEE 754 double
   * arithmetic and CPython's float formatting, and `repr` of a literal.
   */
  datatype Host = Host(
    isZero: Double -> bool,
    less: (Double, Double) -> bool,
    equal: (Double, Double) -> bool,
    format14g: Double -> string,
    str: Double -> string,
    repr: IExpr -> string)
}
