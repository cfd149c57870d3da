/**
 * The shape of the code `visitExpr`, `visitStmt` and `visitFun` emit for
 * each kind of node, and when lowering refuses a node.
 */
module LoweringLayout {
  import opened Wrappers
  import opened Ir
  import opened Composing
  import opened Lowering
  import opened Definitions
  import opened LoweringFacts
  import Ast
  import Operators
  import StringExt

  // ---------------------------------------------------------------------
  // Which nodes lower

  /** No `Empty` node and no list concatenation anywhere in the expression. */
  predicate Lowerable(e: Ast.Expr)
  {
    match e
    case Show(operand, _) => Lowerable(operand)
    case Parens(inner, _) => Lowerable(inner)
    case Neg(operand, _) => Lowerable(operand)
    case Not(operand, _) => Lowerable(operand)
    case Bitwise(_, l, r, _) => Lowerable(l) && Lowerable(r)
    case Arith(_, l, r, _) => Lowerable(l) && Lowerable(r)
    case Comp(_, l, r, _) => Lowerable(l) && Lowerable(r)
    case Concat(op, l, r, _) => op == Operators.STR_CONCAT && Lowerable(l) && Lowerable(r)
    case IntLit(_, _) => true
    case FloatLit(_, _) => true
    case BoolLit(_, _) => true
    case StrLit(_, _) => true
    case NilLit(_) => true
    case TableLit(keys, vals, _) => AllLowerable(keys) && AllLowerable(vals)
    case OfInterpol(i) => InterpolLowerable(i)
    case Empty(_) => false
  }

  predicate AllLowerable(es: seq<Ast.Expr>)
  {
    forall k :: 0 <= k < |es| ==> Lowerable(es[k])
  }

  predicate InterpolLowerable(i: Ast.Interpol)
  {
    match i
    case Some(_, expr, rest, _) => Lowerable(expr) && InterpolLowerable(rest)
    case End(_, _) => true
  }

  /**
   * Lowering an expression succeeds exactly when it holds no `Empty` node
   * and no list concatenation; the counter it starts from does not matter.
   */
  lemma {:induction false} ExprLowers(e: Ast.Expr, next: nat)
    ensures LowerExpr(e, next).Ok? <==> Lowerable(e)
    decreases e, 1
  {
    match e
    case Show(_, _) => OperandLowers(Show, e, next);
    case Parens(inner, _) => ExprLowers(inner, next);
    case Neg(_, _) => OperandLowers(Neg, e, next);
    case Not(_, _) => OperandLowers(Not, e, next);
    case Bitwise(op, _, _, _) => OperandsLower(BitwiseKind(op), e, next);
    case Arith(op, _, _, _) => OperandsLower(ArithKind(op), e, next);
    case Comp(op, _, _, _) => OperandsLower(CompKind(op), e, next);
    case Concat(_, _, _, _) => OperandsLower(Concat, e, next);
    case IntLit(_, _) =>
    case FloatLit(_, _) =>
    case BoolLit(_, _) =>
    case StrLit(_, _) =>
    case NilLit(_) =>
    case TableLit(_, _, _) => TableLowers(e, next);
    case OfInterpol(i) => InterpolLowers(i, next);
    case Empty(_) =>
  }

  lemma {:induction false} OperandLowers(kind: UnaryKind, e: Ast.Expr, next: nat)
    requires e.Show? || e.Neg? || e.Not?
    ensures LowerExpr(e.operand, next).Ok? ==> LowerUnary(kind, LowerExpr(e.operand, next).value, e.info, e.info.line).Ok?
    ensures LowerExpr(e.operand, next).Ok? <==> Lowerable(e.operand)
    decreases e, 0
  {
    ExprLowers(e.operand, next);
    ExprWellFormed(e.operand, next);
    if LowerExpr(e.operand, next).Ok? {
      UnaryLayout(kind, LowerExpr(e.operand, next).value, e.info, e.info.line);
    }
  }

  lemma {:induction false} OperandsLower(kind: BinaryKind, e: Ast.Expr, next: nat)
    requires e.Bitwise? || e.Arith? || e.Comp? || e.Concat?
    ensures LowerExpr(e.left, next).Ok? <==> Lowerable(e.left)
    ensures LowerExpr(e.left, next).Ok? ==>
      var a := LowerExpr(e.left, next).value;
      && (LowerExpr(e.right, a.next).Ok? <==> Lowerable(e.right))
      && (LowerExpr(e.right, a.next).Ok? ==> LowerBinary(kind, a, LowerExpr(e.right, a.next).value, e.info).Ok?)
    decreases e, 0
  {
    ExprLowers(e.left, next);
    ExprWellFormed(e.left, next);
    var a := LowerExpr(e.left, next);
    if a.Ok? {
      ExprLowers(e.right, a.value.next);
      ExprWellFormed(e.right, a.value.next);
      if LowerExpr(e.right, a.value.next).Ok? {
        BinaryLayout(kind, a.value, LowerExpr(e.right, a.value.next).value, e.info);
      }
    }
  }

  lemma {:induction false} TableLowers(e: Ast.Expr, next: nat)
    requires e.TableLit?
    ensures LowerExpr(e, next).Ok? <==> Lowerable(e)
    decreases e, 0
  {
    match e
    case TableLit(keys, vals, _) =>
      var ks := LowerAll(keys, next);
      assert LowerExpr(e, next).Ok? <==> ks.Ok? && LowerAll(vals, ks.value.next).Ok? by {
        TableLitLowers(e, next);
      }
      assert ks.Ok? <==> AllLowerable(keys) by {
        AllLower(keys, next);
      }
      if ks.Ok? {
        assert LowerAll(vals, ks.value.next).Ok? <==> AllLowerable(vals) by {
          AllLower(vals, ks.value.next);
        }
      }
  }

  /** A list of expressions lowers exactly when each of them does. */
  lemma {:induction false} AllLower(es: seq<Ast.Expr>, next: nat)
    ensures LowerAll(es, next).Ok? <==> AllLowerable(es)
    decreases es, 1
  {
    if |es| > 0 {
      ExprLowers(es[0], next);
      var first := LowerExpr(es[0], next);
      if first.Ok? {
        AllLower(es[1..], first.value.next);
      }
      assert forall k :: 0 < k < |es| ==> es[k] == es[1..][k - 1];
    }
  }

  lemma {:induction false} InterpolLowers(i: Ast.Interpol, next: nat)
    ensures LowerInterpol(i, next).Ok? <==> InterpolLowerable(i)
    decreases i, 1
  {
    match i
    case End(_, _) =>
    case Some(_, _, _, _) =>
      SomePieceLowersOnlyIf(i, next);
      if Lowerable(i.expr) && InterpolLowerable(i.next) {
        SomePieceLowersIf(i, next);
      }
  }

  lemma {:induction false} SomePieceLowersOnlyIf(i: Ast.Interpol, next: nat)
    requires i.Some?
    ensures LowerInterpol(i, next).Ok? ==> InterpolLowerable(i)
    decreases i, 0
  {
    ExprLowers(i.expr, next + 1);
    if LowerExpr(i.expr, next + 1).Ok? {
      InterpolLowers(i.next, LowerExpr(i.expr, next + 1).value.next + 1);
    }
    if LowerInterpol(i, next).Ok? {
      SomePieceExprLowers(i, next);
      SomePieceRestLowers(i, next);
    }
  }

  lemma {:induction false} SomePieceLowersIf(i: Ast.Interpol, next: nat)
    requires i.Some? && Lowerable(i.expr) && InterpolLowerable(i.next)
    ensures LowerInterpol(i, next).Ok?
    decreases i, 0
  {
    assert LowerExpr(i.expr, next + 1).Ok? by {
      ExprLowers(i.expr, next + 1);
    }
    assert LowerInterpol(i.next, LowerExpr(i.expr, next + 1).value.next + 1).Ok? by {
      InterpolLowers(i.next, LowerExpr(i.expr, next + 1).value.next + 1);
    }
    SomePieceLowersFrom(i, next);
  }

  // ---------------------------------------------------------------------
  // The code each node emits

  /** The three-address code kind of a binary operator other than list concatenation. */
  function BinaryKindOf(e: Ast.Expr): BinaryKind
    requires e.Bitwise? || e.Arith? || e.Comp? || e.Concat?
  {
    match e
    case Bitwise(op, _, _, _) => BitwiseKind(op)
    case Arith(op, _, _, _) => ArithKind(op)
    case Comp(op, _, _, _) => CompKind(op)
    case Concat(_, _, _, _) => Concat
  }

  /**
   * The operator mapping is one-to-one: no two source operators lower to
   * the same three-address code.
   */
  lemma OperatorMappingInjective(e1: Ast.Expr, e2: Ast.Expr)
    requires e1.Bitwise? || e1.Arith? || e1.Comp? || e1.Concat?
    requires e2.Bitwise? || e2.Arith? || e2.Comp? || e2.Concat?
    requires e1.Concat? ==> e1.concatOp == Operators.STR_CONCAT
    requires e2.Concat? ==> e2.concatOp == Operators.STR_CONCAT
    ensures BinaryKindOf(e1) == BinaryKindOf(e2) <==>
      || (e1.Bitwise? && e2.Bitwise? && e1.bitwiseOp == e2.bitwiseOp)
      || (e1.Arith? && e2.Arith? && e1.arithOp == e2.arithOp)
      || (e1.Comp? && e2.Comp? && e1.compOp == e2.compOp)
      || (e1.Concat? && e2.Concat?)
  {
  }

  /**
   * A binary node: the left operand's code, the right operand's, then one
   * code of the operator's kind from both values into the next temporary.
   */
  lemma BinaryExprLayout(e: Ast.Expr, next: nat)
    requires e.Bitwise? || e.Arith? || e.Comp? || (e.Concat? && e.concatOp == Operators.STR_CONCAT)
    ensures LowerExpr(e, next).Ok? <==>
      LowerExpr(e.left, next).Ok? && LowerExpr(e.right, LowerExpr(e.left, next).value.next).Ok?
    ensures LowerExpr(e, next).Ok? ==>
      var a := LowerExpr(e.left, next).value;
      var b := LowerExpr(e.right, a.next).value;
      && LowerExpr(e, next).value.next == b.next + 1
      && LowerExpr(e, next).value.compose.ops == a.compose.ops + b.compose.ops
         + [OfTac(Binary(BinaryKindOf(e), Temporary(b.next, e.info.ty), LastTerm(a.compose).value, LastTerm(b.compose).value, IrInfo(e.info.line)))]
  {
    ExprWellFormed(e.left, next);
    var a := LowerExpr(e.left, next);
    if a.Ok? {
      ExprWellFormed(e.right, a.value.next);
      var b := LowerExpr(e.right, a.value.next);
      if b.Ok? {
        BinaryLayout(BinaryKindOf(e), a.value, b.value, e.info);
      }
    }
  }

  /** List concatenation is refused with `NotImplementedError` once both operands are lowered. */
  lemma ListConcatRefused(e: Ast.Expr, next: nat)
    requires e.Concat? && e.concatOp == Operators.LIST_CONCAT
    ensures LowerExpr(e, next).Err?
    ensures LowerExpr(e.left, next).Ok? && LowerExpr(e.right, LowerExpr(e.left, next).value.next).Ok? ==>
      LowerExpr(e, next) == Err(NotImplementedError)
  {
  }

  /** An `Empty` node is refused with `IllegalArgumentException`. */
  lemma EmptyRefused(info: Ast.NodeInfo, next: nat)
    ensures LowerExpr(Ast.Empty(info), next) == Err(IllegalArgumentException)
  {
  }

  /** A program that starts with an `EmptyTop` is refused with `IllegalArgumentException`. */
  lemma EmptyTopProgramRefused(line: int, rest: seq<Ast.Top>)
    ensures Perform(Ast.Program([Ast.EmptyTop(line)] + rest)) == Err(IllegalArgumentException)
  {
    EmptyTopRefused([Ast.EmptyTop(line)] + rest, 0, 0);
  }

  /** The unary kind of `Show`, `Neg` and `Not`. */
  function UnaryKindOf(e: Ast.Expr): UnaryKind
    requires e.Show? || e.Neg? || e.Not?
  {
    match e
    case Show(_, _) => Show
    case Neg(_, _) => Neg
    case Not(_, _) => Not
  }

  /** A one-operand node: the operand's code, then one code of its kind into the next temporary. */
  lemma UnaryExprLayout(e: Ast.Expr, next: nat)
    requires e.Show? || e.Neg? || e.Not?
    ensures LowerExpr(e, next).Ok? <==> LowerExpr(e.operand, next).Ok?
    ensures LowerExpr(e, next).Ok? ==>
      var o := LowerExpr(e.operand, next).value;
      && LowerExpr(e, next).value.next == o.next + 1
      && LowerExpr(e, next).value.compose.ops
         == o.compose.ops + [OfTac(Unary(UnaryKindOf(e), Temporary(o.next, e.info.ty), LastTerm(o.compose).value, IrInfo(e.info.line)))]
  {
    ExprWellFormed(e.operand, next);
    if LowerExpr(e.operand, next).Ok? {
      UnaryLayout(UnaryKindOf(e), LowerExpr(e.operand, next).value, e.info, e.info.line);
    }
  }

  predicate IsLiteral(e: Ast.Expr)
  {
    e.IntLit? || e.FloatLit? || e.BoolLit? || e.StrLit? || e.NilLit?
  }

  /**
   * A literal: exactly one constant, into the next temporary, of the
   * literal's type and on its line; the counter moves on by one.
   */
  lemma LiteralLayout(e: Ast.Expr, next: nat)
    requires IsLiteral(e)
    ensures LowerExpr(e, next).Ok?
    ensures var l := LowerExpr(e, next).value;
      && l.next == next + 1
      && |l.compose.ops| == 1 && l.compose.ops[0].Const?
      && l.compose.ops[0].to == Temporary(next, e.info.ty) && l.compose.ops[0].info == IrInfo(e.info.line)
    ensures e.IntLit? ==> LowerExpr(e, next).value.compose.ops[0].constant == OfInt(e.intValue)
    ensures e.FloatLit? ==> LowerExpr(e, next).value.compose.ops[0].constant == OfFloat(e.floatValue)
    ensures e.BoolLit? ==> LowerExpr(e, next).value.compose.ops[0].constant == OfBool(e.boolValue)
    ensures e.NilLit? ==> LowerExpr(e, next).value.compose.ops[0].constant == OfNil
  {
  }

  /**
   * A string literal is stored between exactly one pair of quotes: at most
   * one quote is trimmed from each end of its text before the pair is put
   * around it.
   */
  lemma StrLayout(s: string, info: Ast.NodeInfo, next: nat)
    ensures LowerExpr(Ast.StrLit(s, info), next).Ok?
    ensures var ops := LowerExpr(Ast.StrLit(s, info), next).value.compose.ops;
      && |ops| == 1 && ops[0].Const? && ops[0].constant.OfStr?
      && var q := ops[0].constant.strValue;
      && |q| >= 2 && q[0] == StringExt.Quote && q[|q| - 1] == StringExt.Quote
      && q[1..|q| - 1] == StringExt.TrimQuotesAround(s)
  {
  }

  /** Quoting once more changes nothing: an already quoted string keeps its single pair. */
  lemma QuotedOnceIdempotent(s: string)
    ensures QuotedOnce(QuotedOnce(s)) == QuotedOnce(s)
    ensures QuotedOnce(StringExt.WrappedInQuotes(s)) == StringExt.WrappedInQuotes(s)
  {
    StringExt.TrimWrappedInQuotes(StringExt.TrimQuotesAround(s));
    StringExt.TrimWrappedInQuotes(s);
  }

  /** `LowerAll` gives one lowered node per expression. */
  lemma {:induction false} AllCount(es: seq<Ast.Expr>, next: nat)
    ensures LowerAll(es, next).Ok? ==> |LowerAll(es, next).value.composes| == |es|
    decreases |es|
  {
    if |es| > 0 && LowerExpr(es[0], next).Ok? {
      AllCount(es[1..], LowerExpr(es[0], next).value.next);
    }
  }

  lemma TableSetsShape(keys: seq<Compose>, vals: LoweredAll, info: Ast.NodeInfo, lo: int, mid: int)
    requires AllWellFormed(keys, lo, mid) && AllWellFormed(vals.composes, mid, vals.next)
    ensures LowerTable(keys, vals, info).Ok?
    ensures
      var table := Temporary(vals.next, info.ty);
      var pre := Flatten(keys) + Flatten(vals.composes);
      var ops := LowerTable(keys, vals, info).value.compose.ops;
      && LowerTable(keys, vals, info).value.next == vals.next + 1
      && |ops| > |pre| && ops[..|pre|] == pre
      && ops[|pre|] == Const(table, OfEmptyTable, IrInfo(info.line))
      && TableSetsOver(ops[|pre| + 1..], table, keys, vals.composes, IrInfo(info.line))
  {
    var table := Temporary(vals.next, info.ty);
    ValuesWithinWiden(keys, lo, mid, lo, vals.next);
    ValuesWithinWiden(vals.composes, mid, vals.next, lo, vals.next);
    TableSetsOf(keys, vals.composes, table, IrInfo(info.line), lo, vals.next);
    TableLayout(keys, vals, info);
    var conn := Each(Zipping(keys, vals.composes), TableSetCallback(table, IrInfo(info.line))).value;
    SplitAround(conn.a.ops, Const(table, OfEmptyTable, IrInfo(info.line)), conn.b.ops);
  }

  /** `Print`: the expression's code, then a `Print` of its value; it fails exactly when the expression does. */
  lemma PrintStmtLayout(e: Ast.Expr, line: int, next: nat)
    ensures LowerStmt(Ast.Print(e, line), next).Ok? <==> LowerExpr(e, next).Ok?
    ensures LowerStmt(Ast.Print(e, line), next).Ok? ==>
      var x := LowerExpr(e, next).value;
      && LowerStmt(Ast.Print(e, line), next).value.next == x.next
      && LowerStmt(Ast.Print(e, line), next).value.compose.ops
         == x.compose.ops + [Print(LastTerm(x.compose).value, IrInfo(line))]
  {
    ExprWellFormed(e, next);
    PrintLayout(e, line, next);
  }
}
