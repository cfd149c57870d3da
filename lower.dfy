/**
 * The lowering stage (`ir/lower/Lower.kt`): a program's syntax tree becomes
 * warm IR, one function per top-level declaration and one basic block per
 * function, built post-order with the list-composition helpers.
 *
 * The only state lowering changes is the two id counters. The functions
 * below say what each visit produces from a given next temporary id and
 * which id comes next; the class `Lower` performs the same visits with the
 * counters as objects and is proved to agree with them.
 */
module Lowering {
  import opened Wrappers
  import opened Ir
  import opened Composing
  import Ast
  import Operators
  import StringExt
  import FunStats
  import Providers

  /** A visit's operations and the next free temporary id after it. */
  datatype Lowered = Lowered(compose: Compose, next: nat)

  /** The visits of a list, in order, and the next free temporary id. */
  datatype LoweredAll = LoweredAll(composes: seq<Compose>, next: nat)

  /** The functions of a program and the two counters after them. */
  datatype LoweredFuns = LoweredFuns(functions: seq<FunStats.IrFun>, next: nat, nextBlock: nat)

  // ---------------------------------------------------------------------
  // Operator mapping

  function BitwiseKind(op: Operators.BitwiseOperator): BinaryKind
  {
    match op
    case SHL_OP => Shl
    case SHR_OP => Shr
    case BIT_AND_OP => BitAnd
    case BIT_OR_OP => BitOr
    case BIT_XOR_OP => BitXor
  }

  function ArithKind(op: Operators.ArithOperator): BinaryKind
  {
    match op
    case ADD => Add
    case SUB => Sub
    case MUL => Mul
    case DIV => Div
  }

  function CompKind(op: Operators.CompOperator): BinaryKind
  {
    match op
    case EQ_OP => Eq
    case NEQ_OP => Neq
    case GT_OP => Gt
    case GTE_OP => Gte
    case LT_OP => Lt
    case LTE_OP => Lte
  }

  // ---------------------------------------------------------------------
  // The visits, on an explicit counter

  /**
   * The callback `{ (a, b) -> Tac.X(newTemp(…), a, b, info) }` with its
   * temporary already chosen. `Junction.then` and `Viewing.then` always
   * hand it at least two terms here.
   */
  function PairCallback(kind: BinaryKind, to: Term, info: IrInfo): seq<Term> -> Op
  {
    ts => if |ts| < 2 then Dummy(to) else OfTac(Binary(kind, to, ts[0], ts[1], info))
  }

  /** The callback of `visitTable`: one `TableSet` into the table per key and value. */
  function TableSetCallback(table: Term, info: IrInfo): ((Term, Term)) -> Op
  {
    (kv: (Term, Term)) => OfTac(TableSet(table, kv.0, kv.1, info))
  }

  /** `newConst`: one constant into a new temporary of the node's type. */
  function NewConst(info: Ast.NodeInfo, c: IrConst, next: nat): Lowered
  {
    Lowered(Single(Const(Temporary(next, info.ty), c, IrInfo(info.line))), next + 1)
  }

  /** The string constant `newStr` stores: the text with exactly one pair of quotes around it. */
  function QuotedOnce(s: string): string
  {
    StringExt.WrappedInQuotes(StringExt.TrimQuotesAround(s))
  }

  /** `newStr`. */
  function NewStr(info: Ast.NodeInfo, s: string, next: nat): Lowered
  {
    NewConst(info, OfStr(QuotedOnce(s)), next)
  }

  /** `withLast { Tac.X(newTemp(node), it, info) }`: a one-operand code after the operand. */
  function LowerUnary(kind: UnaryKind, operand: Lowered, info: Ast.NodeInfo, line: int): Result<Lowered>
  {
    var c :- WithLast(operand.compose, t => OfTac(Unary(kind, Temporary(operand.next, info.ty), t, IrInfo(line))));
    Ok(Lowered(c, operand.next + 1))
  }

  /** `left.join(right).then { … }.connect()`: both operands, then the code. */
  function LowerBinary(kind: BinaryKind, left: Lowered, right: Lowered, info: Ast.NodeInfo): Result<Lowered>
  {
    var conn :- JunctionThen(Join(left.compose, right.compose),
                             PairCallback(kind, Temporary(right.next, info.ty), IrInfo(info.line)));
    Ok(Lowered(Connect(conn), right.next + 1))
  }

  /** The constant a literal other than a string or a table stores. */
  function LitConst(e: Ast.Expr): IrConst
    requires e.IntLit? || e.FloatLit? || e.BoolLit? || e.NilLit?
  {
    match e
    case IntLit(v, _) => OfInt(v)
    case FloatLit(v, _) => OfFloat(v)
    case BoolLit(v, _) => OfBool(v)
    case NilLit(_) => OfNil
  }

  /** `visitExpr` from the given next temporary id. */
  function LowerExpr(e: Ast.Expr, next: nat): Result<Lowered>
  {
    match e
    case Show(operand, info) =>
      var o :- LowerExpr(operand, next);
      LowerUnary(Show, o, info, info.line)
    case Parens(inner, _) => LowerExpr(inner, next)
    case Neg(operand, info) =>
      var o :- LowerExpr(operand, next);
      LowerUnary(Neg, o, info, info.line)
    case Not(operand, info) =>
      var o :- LowerExpr(operand, next);
      LowerUnary(Not, o, info, info.line)
    case Bitwise(op, l, r, info) =>
      var a :- LowerExpr(l, next);
      var b :- LowerExpr(r, a.next);
      LowerBinary(BitwiseKind(op), a, b, info)
    case Arith(op, l, r, info) =>
      var a :- LowerExpr(l, next);
      var b :- LowerExpr(r, a.next);
      LowerBinary(ArithKind(op), a, b, info)
    case Comp(op, l, r, info) =>
      var a :- LowerExpr(l, next);
      var b :- LowerExpr(r, a.next);
      LowerBinary(CompKind(op), a, b, info)
    case Concat(op, l, r, info) =>
      var a :- LowerExpr(l, next);
      var b :- LowerExpr(r, a.next);
      if op == Operators.LIST_CONCAT then Err(NotImplementedError)
      else LowerBinary(Concat, a, b, info)
    case IntLit(_, info) => Ok(NewConst(info, LitConst(e), next))
    case FloatLit(_, info) => Ok(NewConst(info, LitConst(e), next))
    case BoolLit(_, info) => Ok(NewConst(info, LitConst(e), next))
    case StrLit(s, info) => Ok(NewStr(info, s, next))
    case NilLit(info) => Ok(NewConst(info, LitConst(e), next))
    case TableLit(keys, vals, info) =>
      var ks :- LowerAll(keys, next);
      var vs :- LowerAll(vals, ks.next);
      LowerTable(ks.composes, vs, info)
    case OfInterpol(i) => LowerInterpol(i, next)
    case Empty(_) => Err(IllegalArgumentException)
  }

  /**
   * The end of `visitTable`: the empty table into a new temporary, placed
   * between the keys and values and the `TableSet`s.
   */
  function LowerTable(keys: seq<Compose>, vals: LoweredAll, info: Ast.NodeInfo): Result<Lowered>
  {
    var table := NewConst(info, OfEmptyTable, vals.next);
    var conn :- Each(Zipping(keys, vals.composes), TableSetCallback(Temporary(vals.next, info.ty), IrInfo(info.line)));
    Ok(Lowered(PlugInBetween(conn, table.compose), table.next))
  }

  /** `map(::visitExpr)`. */
  function LowerAll(es: seq<Ast.Expr>, next: nat): Result<LoweredAll>
  {
    if |es| == 0 then Ok(LoweredAll([], next))
    else
      var first :- LowerExpr(es[0], next);
      var rest :- LowerAll(es[1..], first.next);
      Ok(LoweredAll([first.compose] + rest.composes, rest.next))
  }

  /** `visitInterpol`. */
  function LowerInterpol(i: Ast.Interpol, next: nat): Result<Lowered>
  {
    match i
    case End(s, info) => Ok(NewStr(info, s, next))
    case Some(s, expr, rest, info) =>
      var str := NewStr(info, s, next);
      var ex :- LowerExpr(expr, str.next);
      var shown :- LowerUnary(Show, ex, info, Ast.LineOf(expr));
      var nx :- LowerInterpol(rest, shown.next);
      LowerSome(str.compose, shown.compose, nx, info)
  }

  /**
   * The end of `visitSome`: the string, its shown expression and the rest
   * joined, with the string and the shown expression concatenated; then
   * that concatenated with the rest's last term.
   */
  function LowerSome(str: Compose, shown: Compose, nx: Lowered, info: Ast.NodeInfo): Result<Lowered>
  {
    var first :- JunctionThen(JunctionJoin(Join(str, shown), nx.compose),
                              PairCallback(Concat, Temporary(nx.next, info.ty), IrInfo(info.line)));
    var second :- ViewingThen(ViewingOf(Connect(first), nx.compose),
                              PairCallback(Concat, Temporary(nx.next + 1, info.ty), IrInfo(info.line)));
    Ok(Lowered(Connect(second), nx.next + 2))
  }

  /** `visitStmt`. */
  function LowerStmt(s: Ast.Stmt, next: nat): Result<Lowered>
  {
    match s
    case Print(e, line) =>
      var x :- LowerExpr(e, next);
      var c :- WithLast(x.compose, t => Print(t, IrInfo(line)));
      Ok(Lowered(c, x.next))
    case OfExpr(e) => LowerExpr(e, next)
  }

  /** `decls.map(::visitDecl)`. */
  function LowerDecls(ds: seq<Ast.Decl>, next: nat): Result<LoweredAll>
  {
    if |ds| == 0 then Ok(LoweredAll([], next))
    else
      var first :- LowerStmt(ds[0].stmt, next);
      var rest :- LowerDecls(ds[1..], first.next);
      Ok(LoweredAll([first.compose] + rest.composes, rest.next))
  }

  /**
   * `visitFun`: all declarations merged into one basic block with the next
   * block id; a function without declarations cannot be reduced.
   */
  function LowerFun(name: string, decls: seq<Ast.Decl>, next: nat, nextBlock: nat): Result<(FunStats.IrFun, Lowered)>
  {
    var ds :- LowerDecls(decls, next);
    if |ds.composes| == 0 then Err(UnsupportedOperationException)
    else
      var ops := Reduce(ds.composes).ops;
      Ok((FunStats.IrFunFrom([Basic(nextBlock, ops)], name), Lowered(Compose(ops), ds.next)))
  }

  /** `data.decls.map(::visitTop)`. */
  function LowerTops(tops: seq<Ast.Top>, next: nat, nextBlock: nat): Result<LoweredFuns>
  {
    if |tops| == 0 then Ok(LoweredFuns([], next, nextBlock))
    else
      match tops[0]
      case EmptyTop(_) => Err(IllegalArgumentException)
      case Fun(name, decls, _) =>
        var f :- LowerFun(name, decls, next, nextBlock);
        var rest :- LowerTops(tops[1..], f.1.next, nextBlock + 1);
        Ok(LoweredFuns([f.0] + rest.functions, rest.next, rest.nextBlock))
  }

  /** `perform` from fresh counters. */
  function Perform(p: Ast.Program): Result<FunStats.IrModule>
  {
    var fs :- LowerTops(p.decls, 0, 0);
    Ok(FunStats.IrModule(fs.functions))
  }

  // ---------------------------------------------------------------------
  // The stage itself

  /** A visit's result agrees with its specification and leaves the counter where it says. */
  predicate Agrees(r: Result<Compose>, spec: Result<Lowered>, next: nat)
  {
    match spec
    case Ok(l) => r == Ok(l.compose) && next == l.next
    case Err(f) => r == Err(f)
  }

  predicate AgreesAll(r: Result<seq<Compose>>, spec: Result<LoweredAll>, next: nat)
  {
    match spec
    case Ok(l) => r == Ok(l.composes) && next == l.next
    case Err(f) => r == Err(f)
  }

  class Lower {
    const terms: Providers.Terms
    const blocks: Providers.Blocks

    constructor()
      ensures fresh(terms) && fresh(blocks)
      ensures terms.nextId == 0 && blocks.nextId == 0
    {
      terms := new Providers.Terms();
      blocks := new Providers.Blocks();
    }

    /** `perform`: the module's functions, each lowered in order. */
    method Perform(p: Ast.Program) returns (r: Result<FunStats.IrModule>)
      modifies terms, blocks
      ensures
        var spec := LowerTops(p.decls, old(terms.nextId), old(blocks.nextId));
        && (spec.Ok? ==> r == Ok(FunStats.IrModule(spec.value.functions))
                         && terms.nextId == spec.value.next && blocks.nextId == spec.value.nextBlock)
        && (spec.Err? ==> r == Err(spec.error))
    {
      var fs :- VisitTops(p.decls);
      r := Ok(FunStats.IrModule(fs));
    }

    method VisitTops(tops: seq<Ast.Top>) returns (r: Result<seq<FunStats.IrFun>>)
      modifies terms, blocks
      ensures
        var spec := LowerTops(tops, old(terms.nextId), old(blocks.nextId));
        && (spec.Ok? ==> r == Ok(spec.value.functions)
                         && terms.nextId == spec.value.next && blocks.nextId == spec.value.nextBlock)
        && (spec.Err? ==> r == Err(spec.error))
      decreases |tops|
    {
      if |tops| == 0 {
        return Ok([]);
      }
      match tops[0] {
        case EmptyTop(_) =>
          return Err(IllegalArgumentException);
        case Fun(name, decls, _) =>
          var f :- VisitFun(name, decls);
          var rest :- VisitTops(tops[1..]);
          r := Ok([f] + rest);
      }
    }

    /** `visitFun`. */
    method VisitFun(name: string, decls: seq<Ast.Decl>) returns (r: Result<FunStats.IrFun>)
      modifies terms, blocks
      ensures
        var spec := LowerFun(name, decls, old(terms.nextId), old(blocks.nextId));
        && (spec.Ok? ==> r == Ok(spec.value.0) && terms.nextId == spec.value.1.next
                         && blocks.nextId == old(blocks.nextId) + 1)
        && (spec.Err? ==> r == Err(spec.error))
    {
      var composes :- VisitDecls(decls);
      if |composes| == 0 {
        return Err(UnsupportedOperationException);
      }
      var block := blocks.NewBasic(Reduce(composes).ops);
      r := Ok(FunStats.IrFunFrom([block], name));
    }

    method VisitDecls(ds: seq<Ast.Decl>) returns (r: Result<seq<Compose>>)
      modifies terms
      ensures AgreesAll(r, LowerDecls(ds, old(terms.nextId)), terms.nextId)
      decreases |ds|
    {
      if |ds| == 0 {
        return Ok([]);
      }
      var first :- VisitStmt(ds[0].stmt);
      var rest :- VisitDecls(ds[1..]);
      r := Ok([first] + rest);
    }

    /** `visitStmt`, with `visitPrint`. */
    method VisitStmt(s: Ast.Stmt) returns (r: Result<Compose>)
      modifies terms
      ensures Agrees(r, LowerStmt(s, old(terms.nextId)), terms.nextId)
    {
      match s {
        case Print(e, line) =>
          var x :- VisitExpr(e);
          r := WithLast(x, t => Print(t, IrInfo(line)));
        case OfExpr(e) =>
          r := VisitExpr(e);
      }
    }

    /** `visitExpr`: the dispatch to the visit of each kind of node. */
    method VisitExpr(e: Ast.Expr) returns (r: Result<Compose>)
      modifies terms
      ensures Agrees(r, LowerExpr(e, old(terms.nextId)), terms.nextId)
      decreases e, 1
    {
      match e {
        case Show(_, _) =>
          r := VisitUnOp(e);
        case Parens(inner, _) =>
          r := VisitExpr(inner);
        case Neg(_, _) =>
          r := VisitUnOp(e);
        case Not(_, _) =>
          r := VisitUnOp(e);
        case Bitwise(_, _, _, _) =>
          r := VisitBinOp(e);
        case Arith(_, _, _, _) =>
          r := VisitBinOp(e);
        case Comp(_, _, _, _) =>
          r := VisitBinOp(e);
        case Concat(_, _, _, _) =>
          r := VisitBinOp(e);
        case IntLit(_, info) =>
          r := NewConstOp(info, LitConst(e));
        case FloatLit(_, info) =>
          r := NewConstOp(info, LitConst(e));
        case BoolLit(_, info) =>
          r := NewConstOp(info, LitConst(e));
        case StrLit(s, info) =>
          r := NewConstOp(info, OfStr(QuotedOnce(s)));
        case NilLit(info) =>
          r := NewConstOp(info, LitConst(e));
        case TableLit(_, _, _) =>
          r := VisitTableLit(e);
        case OfInterpol(i) =>
          r := VisitInterpol(i);
        case Empty(_) =>
          r := Err(IllegalArgumentException);
      }
    }

    /** `visitShow` and `visitUnOp`: the operand, then one code into a new temporary. */
    method VisitUnOp(e: Ast.Expr) returns (r: Result<Compose>)
      requires e.Show? || e.Neg? || e.Not?
      modifies terms
      ensures Agrees(r, LowerExpr(e, old(terms.nextId)), terms.nextId)
      decreases e, 0
    {
      match e {
        case Show(operand, info) =>
          var o :- VisitExpr(operand);
          r := VisitUnary(Show, o, info, info.line);
        case Neg(operand, info) =>
          var o :- VisitExpr(operand);
          r := VisitUnary(Neg, o, info, info.line);
        case Not(operand, info) =>
          var o :- VisitExpr(operand);
          r := VisitUnary(Not, o, info, info.line);
      }
    }

    /** `visitBinOp`: both operands, then one code into a new temporary; list concatenation throws. */
    method VisitBinOp(e: Ast.Expr) returns (r: Result<Compose>)
      requires e.Bitwise? || e.Arith? || e.Comp? || e.Concat?
      modifies terms
      ensures Agrees(r, LowerExpr(e, old(terms.nextId)), terms.nextId)
      decreases e, 0
    {
      match e {
        case Bitwise(op, left, right, info) =>
          var a :- VisitExpr(left);
          var b :- VisitExpr(right);
          r := VisitBinary(BitwiseKind(op), a, b, info);
        case Arith(op, left, right, info) =>
          var a :- VisitExpr(left);
          var b :- VisitExpr(right);
          r := VisitBinary(ArithKind(op), a, b, info);
        case Comp(op, left, right, info) =>
          var a :- VisitExpr(left);
          var b :- VisitExpr(right);
          r := VisitBinary(CompKind(op), a, b, info);
        case Concat(op, left, right, info) =>
          var a :- VisitExpr(left);
          var b :- VisitExpr(right);
          if op == Operators.LIST_CONCAT {
            return Err(NotImplementedError);
          }
          r := VisitBinary(Concat, a, b, info);
      }
    }

    /** `visitTable`: the keys, the values, then the table and its `TableSet`s. */
    method VisitTableLit(e: Ast.Expr) returns (r: Result<Compose>)
      requires e.TableLit?
      modifies terms
      ensures Agrees(r, LowerExpr(e, old(terms.nextId)), terms.nextId)
      decreases e, 0
    {
      match e {
        case TableLit(keys, vals, info) =>
          var ks :- VisitAll(keys);
          var vs :- VisitAll(vals);
          r := VisitTable(ks, vs, info);
      }
    }

    method VisitAll(es: seq<Ast.Expr>) returns (r: Result<seq<Compose>>)
      modifies terms
      ensures AgreesAll(r, LowerAll(es, old(terms.nextId)), terms.nextId)
      decreases es
    {
      if |es| == 0 {
        return Ok([]);
      }
      var first :- VisitExpr(es[0]);
      var rest :- VisitAll(es[1..]);
      r := Ok([first] + rest);
    }

    /** `visitInterpol`: `visitEnd` makes the closing string constant, `visitSome` the rest. */
    method VisitInterpol(i: Ast.Interpol) returns (r: Result<Compose>)
      modifies terms
      ensures Agrees(r, LowerInterpol(i, old(terms.nextId)), terms.nextId)
      decreases i, 1
    {
      match i {
        case End(s, info) =>
          r := NewConstOp(info, OfStr(QuotedOnce(s)));
        case Some(_, _, _, _) =>
          r := VisitSome(i);
      }
    }

    /** `visitSome`: the string, the shown expression, the rest, then the two concatenations. */
    method VisitSome(i: Ast.Interpol) returns (r: Result<Compose>)
      requires i.Some?
      modifies terms
      ensures Agrees(r, LowerInterpol(i, old(terms.nextId)), terms.nextId)
      decreases i, 0
    {
      match i {
        case Some(s, expr, rest, info) =>
          var str := NewConstOp(info, OfStr(QuotedOnce(s)));
          var ex :- VisitExpr(expr);
          var shown :- VisitUnary(Show, ex, info, Ast.LineOf(expr));
          var nx :- VisitInterpol(rest);
          var first := terms.NewTemporary(info.ty);
          var second := terms.NewTemporary(info.ty);
          r := ComposeOf(LowerSome(str.value, shown, Lowered(nx, first.id), info));
      }
    }


    /** A one-operand code: the temporary is taken once the operand's last term is known. */
    method VisitUnary(kind: UnaryKind, operand: Compose, info: Ast.NodeInfo, line: int) returns (r: Result<Compose>)
      modifies terms
      ensures Agrees(r, LowerUnary(kind, Lowered(operand, old(terms.nextId)), info, line), terms.nextId)
    {
      if |operand.ops| == 0 {
        return Err(NoSuchElementException);
      }
      var to := terms.NewTemporary(info.ty);
      r := WithLast(operand, t => OfTac(Unary(kind, to, t, IrInfo(line))));
    }

    /** A two-operand code: the temporary is taken after both operands, inside the callback. */
    method VisitBinary(kind: BinaryKind, left: Compose, right: Compose, info: Ast.NodeInfo) returns (r: Result<Compose>)
      modifies terms
      ensures Agrees(r, LowerBinary(kind, Lowered(left, 0), Lowered(right, old(terms.nextId)), info), terms.nextId)
    {
      if |left.ops| == 0 || |right.ops| == 0 {
        return Err(NoSuchElementException);
      }
      var to := terms.NewTemporary(info.ty);
      var conn :- JunctionThen(Join(left, right), PairCallback(kind, to, IrInfo(info.line)));
      r := Ok(Connect(conn));
    }

    /** The end of `visitTable`. */
    method VisitTable(keys: seq<Compose>, vals: seq<Compose>, info: Ast.NodeInfo) returns (r: Result<Compose>)
      modifies terms
      ensures Agrees(r, LowerTable(keys, LoweredAll(vals, old(terms.nextId)), info), terms.nextId)
    {
      var table := NewConstOp(info, OfEmptyTable);
      var conn :- Each(Zipping(keys, vals), TableSetCallback(OpTerm(table.value.ops[0]), IrInfo(info.line)));
      r := Ok(PlugInBetween(conn, table.value));
    }

    /** `newConst`. */
    method NewConstOp(info: Ast.NodeInfo, c: IrConst) returns (r: Result<Compose>)
      modifies terms
      ensures Agrees(r, Ok(NewConst(info, c, old(terms.nextId))), terms.nextId)
    {
      var to := terms.NewTemporary(info.ty);
      r := Ok(Single(Const(to, c, IrInfo(info.line))));
    }
  }

  /** A visit's result without its counter. */
  function ComposeOf(l: Result<Lowered>): (r: Result<Compose>)
    ensures l.Ok? <==> r.Ok?
  {
    match l
    case Ok(v) => Ok(v.compose)
    case Err(f) => Err(f)
  }
}
