/**
 * The syntax tree the lowering stage reads, as `ir/lower/Lower.kt` matches
 * on it. The wrappers `Expr.OfUnOp`, `Expr.OfBinOp` and `Expr.OfLit` are
 * folded into `Expr`: each unary operation, binary operation and literal is
 * an expression variant of its own. Every node carries the line of its
 * location and its resolved type, which is all lowering reads of them.
 */
module Ast {
  import opened Types
  import Ir
  import KotlinInt
  import Operators

  /** A node's location line and its type (`loc().line`, `type()`). */
  datatype NodeInfo = NodeInfo(line: int, ty: Type)

  datatype Expr =
    | Show(operand: Expr, info: NodeInfo)
    | Parens(inner: Expr, parensLine: int)
    | Neg(operand: Expr, info: NodeInfo)
    | Not(operand: Expr, info: NodeInfo)
    | Bitwise(bitwiseOp: Operators.BitwiseOperator, left: Expr, right: Expr, info: NodeInfo)
    | Arith(arithOp: Operators.ArithOperator, left: Expr, right: Expr, info: NodeInfo)
    | Comp(compOp: Operators.CompOperator, left: Expr, right: Expr, info: NodeInfo)
    | Concat(concatOp: Operators.ConcatOperator, left: Expr, right: Expr, info: NodeInfo)
    | IntLit(intValue: KotlinInt.Int32, info: NodeInfo)
    | FloatLit(floatValue: Ir.Float32, info: NodeInfo)
    | BoolLit(boolValue: bool, info: NodeInfo)
    | StrLit(strValue: string, info: NodeInfo)
    | NilLit(info: NodeInfo)
    | TableLit(keys: seq<Expr>, vals: seq<Expr>, info: NodeInfo)
    | OfInterpol(interpol: Interpol)
    | Empty(info: NodeInfo)

  /**
   * One piece of a string interpolation: a string followed by an
   * expression and the rest of the interpolation, or the final string.
   */
  datatype Interpol =
    | Some(str: string, expr: Expr, next: Interpol, info: NodeInfo)
    | End(str: string, info: NodeInfo)

  datatype Stmt = Print(expr: Expr, line: int) | OfExpr(expr: Expr)

  datatype Decl = OfStmt(stmt: Stmt)

  datatype Top = Fun(name: string, decls: seq<Decl>, line: int) | EmptyTop(line: int)

  /** A program: its top-level declarations. */
  datatype Program = Program(decls: seq<Top>)

  /** `Expr.loc().line`: a wrapped node answers with its own location. */
  function LineOf(e: Expr): int
  {
    match e
    case Parens(_, line) => line
    case OfInterpol(i) => i.info.line
    case _ => e.info.line
  }
}
