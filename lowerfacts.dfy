/**
 * What lowering guarantees about the IR it builds: every temporary is
 * defined exactly once, in the order the counter hands them out, and no
 * operation reads a temporary before its definition.
 */
module LoweringFacts {
  import opened Wrappers
  import opened Ir
  import opened Composing
  import opened Lowering
  import opened Definitions
  import Ast
  import FunStats

  lemma ConstWellFormed(info: Ast.NodeInfo, c: IrConst, next: nat)
    ensures WellFormed(NewConst(info, c, next).compose.ops, next, next + 1)
  {
    var op := Const(Temporary(next, info.ty), c, IrInfo(info.line));
    DefIdsSingle(op);
    assert [op][..0] == [];
  }

  /**
   * A one-operand node: the operand's code, then one code from the
   * operand's value into the next temporary. It fails exactly when the
   * operand has no code.
   */
  lemma UnaryLayout(kind: UnaryKind, o: Lowered, info: Ast.NodeInfo, line: int)
    ensures LowerUnary(kind, o, info, line).Ok? <==> |o.compose.ops| > 0
    ensures LowerUnary(kind, o, info, line).Ok? ==>
      && LowerUnary(kind, o, info, line).value.next == o.next + 1
      && LowerUnary(kind, o, info, line).value.compose.ops
         == o.compose.ops + [OfTac(Unary(kind, Temporary(o.next, info.ty), LastTerm(o.compose).value, IrInfo(line)))]
  {
  }

  lemma UnaryWellFormed(kind: UnaryKind, o: Lowered, info: Ast.NodeInfo, line: int, lo: int)
    requires WellFormed(o.compose.ops, lo, o.next)
    ensures LowerUnary(kind, o, info, line).Ok? && LowerUnary(kind, o, info, line).value.next == o.next + 1
    ensures WellFormed(LowerUnary(kind, o, info, line).value.compose.ops, lo, o.next + 1)
  {
    UnaryLayout(kind, o, info, line);
    UnaryReadsWithin(kind, Temporary(o.next, info.ty), LastTerm(o.compose).value, IrInfo(line), lo, o.next);
    DefinitionSnoc(o.compose.ops, OfTac(Unary(kind, Temporary(o.next, info.ty), LastTerm(o.compose).value, IrInfo(line))), lo, o.next);
  }

  /**
   * A two-operand node: the left operand's code, the right one's, then one
   * code from both values into the next temporary. It fails exactly when
   * an operand has no code.
   */
  lemma BinaryLayout(kind: BinaryKind, a: Lowered, b: Lowered, info: Ast.NodeInfo)
    ensures LowerBinary(kind, a, b, info).Ok? <==> |a.compose.ops| > 0 && |b.compose.ops| > 0
    ensures LowerBinary(kind, a, b, info).Ok? ==>
      && LowerBinary(kind, a, b, info).value.next == b.next + 1
      && LowerBinary(kind, a, b, info).value.compose.ops == a.compose.ops + b.compose.ops
         + [OfTac(Binary(kind, Temporary(b.next, info.ty), LastTerm(a.compose).value, LastTerm(b.compose).value, IrInfo(info.line)))]
  {
    var j := Join(a.compose, b.compose);
    var cb := PairCallback(kind, Temporary(b.next, info.ty), IrInfo(info.line));
    JunctionThenSpec(j, cb);
    if |a.compose.ops| > 0 && |b.compose.ops| > 0 {
      FlattenPair(a.compose, b.compose);
      var terms := LastTerms(j.composes).value;
      assert terms[0] == LastTerm(a.compose).value && terms[1] == LastTerm(b.compose).value;
    } else {
      assert !(forall i :: 0 <= i < |j.composes| ==> |j.composes[i].ops| > 0);
    }
  }

  lemma BinaryWellFormed(kind: BinaryKind, a: Lowered, b: Lowered, info: Ast.NodeInfo, lo: int)
    requires WellFormed(a.compose.ops, lo, a.next) && WellFormed(b.compose.ops, a.next, b.next)
    ensures LowerBinary(kind, a, b, info).Ok? && LowerBinary(kind, a, b, info).value.next == b.next + 1
    ensures WellFormed(LowerBinary(kind, a, b, info).value.compose.ops, lo, b.next + 1)
  {
    BinaryLayout(kind, a, b, info);
    DefinesRangeAppend(a.compose.ops, b.compose.ops, lo, a.next, b.next);
    ReadsDefinedAppend(a.compose.ops, b.compose.ops, lo, a.next);
    var to := Temporary(b.next, info.ty);
    BinaryReadsWithin(kind, to, LastTerm(a.compose).value, LastTerm(b.compose).value, IrInfo(info.line), lo, b.next);
    DefinitionSnoc(a.compose.ops + b.compose.ops,
      OfTac(Binary(kind, to, LastTerm(a.compose).value, LastTerm(b.compose).value, IrInfo(info.line))), lo, b.next);
  }


  /**
   * One `TableSet` into `table` per key and value, paired by index up to
   * the shorter list, each from the key's value and the value's value.
   */
  predicate TableSetsOver(sets: seq<Op>, table: Term, keys: seq<Compose>, vals: seq<Compose>, info: IrInfo)
  {
    && |sets| == (if |keys| < |vals| then |keys| else |vals|)
    && forall j :: 0 <= j < |sets| ==>
         && |keys[j].ops| > 0 && |vals[j].ops| > 0
         && sets[j] == OfTac(TableSet(table, LastTerm(keys[j]).value, LastTerm(vals[j]).value, info))
  }

  /** The `TableSet`s of a table define nothing and read the table and a key and a value. */
  lemma TableSetsRead(keys: seq<Compose>, vals: seq<Compose>, table: Term, info: IrInfo, lo: int, hi: int, sets: seq<Op>)
    requires ValuesWithin(keys, lo, hi) && ValuesWithin(vals, lo, hi) && lo <= table.id < hi
    requires TableSetsOver(sets, table, keys, vals, info)
    ensures ReadersInto(sets, lo, hi, table)
  {
    forall j | 0 <= j < |sets|
      ensures !OpIsDefinition(sets[j]) && ReadsWithin(sets[j], lo, hi) && OpTerm(sets[j]) == table
    {
      assert Reads(sets[j]) == [table, LastTerm(keys[j]).value, LastTerm(vals[j]).value];
    }
  }

  /** The keys and values in a row, and the `TableSet`s that follow them. */
  lemma TableSetsWellFormed(keys: seq<Compose>, vals: seq<Compose>, table: Term, info: IrInfo, lo: int, mid: int, hi: int)
    requires AllWellFormed(keys, lo, mid) && AllWellFormed(vals, mid, hi) && table.id == hi
    ensures Each(Zipping(keys, vals), TableSetCallback(table, info)).Ok?
    ensures var conn := Each(Zipping(keys, vals), TableSetCallback(table, info)).value;
      && DefinesRange(conn.a.ops, lo, hi) && ReadsDefined(conn.a.ops, lo)
      && ReadersInto(conn.b.ops, lo, hi + 1, table)
  {
    TableSetsOf(keys, vals, table, info, lo, hi + 1);
    var conn := Each(Zipping(keys, vals), TableSetCallback(table, info)).value;
    TableSetsRead(keys, vals, table, info, lo, hi + 1, conn.b.ops);
    DefinesRangeAppend(Flatten(keys), Flatten(vals), lo, mid, hi);
    ReadsDefinedAppend(Flatten(keys), Flatten(vals), lo, mid);
  }

  /** `each` with the `TableSet` callback, spelled out. */
  lemma TableSetsOf(keys: seq<Compose>, vals: seq<Compose>, table: Term, info: IrInfo, lo: int, hi: int)
    requires ValuesWithin(keys, lo, hi) && ValuesWithin(vals, lo, hi)
    ensures Each(Zipping(keys, vals), TableSetCallback(table, info)).Ok?
    ensures var c := Each(Zipping(keys, vals), TableSetCallback(table, info)).value;
      c.a.ops == Flatten(keys) + Flatten(vals) && TableSetsOver(c.b.ops, table, keys, vals, info)
  {
    EachSpec(Zipping(keys, vals), TableSetCallback(table, info));
  }

  /** `visitTable`'s code: the keys and values, the empty table, then one `TableSet` per pair. */
  lemma TableLayout(keys: seq<Compose>, vals: LoweredAll, info: Ast.NodeInfo)
    ensures LowerTable(keys, vals, info).Ok? == Each(Zipping(keys, vals.composes), TableSetCallback(Temporary(vals.next, info.ty), IrInfo(info.line))).Ok?
    ensures LowerTable(keys, vals, info).Ok? ==>
      var conn := Each(Zipping(keys, vals.composes), TableSetCallback(Temporary(vals.next, info.ty), IrInfo(info.line))).value;
      && LowerTable(keys, vals, info).value.next == vals.next + 1
      && LowerTable(keys, vals, info).value.compose.ops
         == conn.a.ops + [Const(Temporary(vals.next, info.ty), OfEmptyTable, IrInfo(info.line))] + conn.b.ops
  {
    var conn := Each(Zipping(keys, vals.composes), TableSetCallback(Temporary(vals.next, info.ty), IrInfo(info.line)));
    if conn.Ok? {
      ConnectionOrders(conn.value, Single(Const(Temporary(vals.next, info.ty), OfEmptyTable, IrInfo(info.line))));
    }
  }

  lemma TableWellFormed(keys: seq<Compose>, vals: LoweredAll, info: Ast.NodeInfo, lo: int, mid: int)
    requires AllWellFormed(keys, lo, mid) && AllWellFormed(vals.composes, mid, vals.next)
    ensures LowerTable(keys, vals, info).Ok?
    ensures WellFormed(LowerTable(keys, vals, info).value.compose.ops, lo, vals.next + 1)
  {
    var table := Temporary(vals.next, info.ty);
    TableSetsWellFormed(keys, vals.composes, table, IrInfo(info.line), lo, mid, vals.next);
    var conn := Each(Zipping(keys, vals.composes), TableSetCallback(table, IrInfo(info.line))).value;
    TableLayout(keys, vals, info);
    var cop := Const(table, OfEmptyTable, IrInfo(info.line));
    assert Reads(cop) == [];
    DefinitionThenReaders(conn.a.ops, cop, conn.b.ops, lo, vals.next);
  }

  /** The first half of `visitSome`: the string and the shown expression concatenated, after the rest. */
  lemma SomeFirstLayout(str: Compose, shown: Compose, nx: Lowered, info: Ast.NodeInfo)
    requires |str.ops| > 0 && |shown.ops| > 0 && |nx.compose.ops| > 0
    ensures
      var j := JunctionJoin(Join(str, shown), nx.compose);
      var cb := PairCallback(Concat, Temporary(nx.next, info.ty), IrInfo(info.line));
      && JunctionThen(j, cb).Ok?
      && Connect(JunctionThen(j, cb).value).ops == str.ops + shown.ops + nx.compose.ops
         + [OfTac(Binary(Concat, Temporary(nx.next, info.ty), LastTerm(str).value, LastTerm(shown).value, IrInfo(info.line)))]
  {
    var j := JunctionJoin(Join(str, shown), nx.compose);
    assert j.composes == [str, shown, nx.compose];
    var cb := PairCallback(Concat, Temporary(nx.next, info.ty), IrInfo(info.line));
    JunctionThenSpec(j, cb);
    JunctionJoinAppends(Join(str, shown), nx.compose);
    FlattenPair(str, shown);
  }

  /** The second half of `visitSome`: the first's value concatenated with the viewed value. */
  lemma ViewingLayout(first: Compose, viewed: Compose, to: Term, info: IrInfo)
    requires |first.ops| > 0 && |viewed.ops| > 0
    ensures ViewingThen(ViewingOf(first, viewed), PairCallback(Concat, to, info)).Ok?
    ensures Connect(ViewingThen(ViewingOf(first, viewed), PairCallback(Concat, to, info)).value).ops
      == first.ops + [OfTac(Binary(Concat, to, LastTerm(first).value, LastTerm(viewed).value, info))]
  {
    var v := ViewingOf(first, viewed);
    ViewingThenSpec(v, PairCallback(Concat, to, info));
    FlattenOne(first);
    assert v.desired[0] == first && v.viewing[0] == viewed;
  }

  /**
   * `visitSome`'s code: the string, the shown expression and the rest, then
   * the string concatenated with the shown value only, then that
   * concatenated with the rest's value. It fails exactly when one of the
   * three parts has no value.
   */
  lemma SomeLayout(str: Compose, shown: Compose, nx: Lowered, info: Ast.NodeInfo)
    ensures LowerSome(str, shown, nx, info).Ok? <==> |str.ops| > 0 && |shown.ops| > 0 && |nx.compose.ops| > 0
    ensures LowerSome(str, shown, nx, info).Ok? ==>
      && LowerSome(str, shown, nx, info).value.next == nx.next + 2
      && LowerSome(str, shown, nx, info).value.compose.ops == str.ops + shown.ops + nx.compose.ops
         + [OfTac(Binary(Concat, Temporary(nx.next, info.ty), LastTerm(str).value, LastTerm(shown).value, IrInfo(info.line)))]
         + [OfTac(Binary(Concat, Temporary(nx.next + 1, info.ty), Temporary(nx.next, info.ty), LastTerm(nx.compose).value, IrInfo(info.line)))]
  {
    var j := JunctionJoin(Join(str, shown), nx.compose);
    assert j.composes == [str, shown, nx.compose];
    var cb := PairCallback(Concat, Temporary(nx.next, info.ty), IrInfo(info.line));
    JunctionThenSpec(j, cb);
    if |str.ops| > 0 && |shown.ops| > 0 && |nx.compose.ops| > 0 {
      SomeFirstLayout(str, shown, nx, info);
      var first := Connect(JunctionThen(j, cb).value);
      assert LastTerm(first).value == Temporary(nx.next, info.ty);
      ViewingLayout(first, nx.compose, Temporary(nx.next + 1, info.ty), IrInfo(info.line));
    } else {
      assert !(forall i :: 0 <= i < |j.composes| ==> |j.composes[i].ops| > 0);
    }
  }

  /** The code `SomeLayout` describes is well formed. */
  lemma SomeOpsWellFormed(str: Compose, shown: Compose, nx: Lowered, info: Ast.NodeInfo, lo: int, m1: int, m2: int)
    requires WellFormed(str.ops, lo, m1) && WellFormed(shown.ops, m1, m2) && WellFormed(nx.compose.ops, m2, nx.next)
    ensures WellFormed(str.ops + shown.ops + nx.compose.ops
      + [OfTac(Binary(Concat, Temporary(nx.next, info.ty), LastTerm(str).value, LastTerm(shown).value, IrInfo(info.line)))]
      + [OfTac(Binary(Concat, Temporary(nx.next + 1, info.ty), Temporary(nx.next, info.ty), LastTerm(nx.compose).value, IrInfo(info.line)))],
      lo, nx.next + 2)
  {
    var op1 := OfTac(Binary(Concat, Temporary(nx.next, info.ty), LastTerm(str).value, LastTerm(shown).value, IrInfo(info.line)));
    var op2 := OfTac(Binary(Concat, Temporary(nx.next + 1, info.ty), Temporary(nx.next, info.ty), LastTerm(nx.compose).value, IrInfo(info.line)));
    WellFormedThree(str.ops, shown.ops, nx.compose.ops, lo, m1, m2, nx.next);
    var body := str.ops + shown.ops + nx.compose.ops;
    BinaryReadsWithin(Concat, Temporary(nx.next, info.ty), LastTerm(str).value, LastTerm(shown).value, IrInfo(info.line), lo, nx.next);
    DefinitionSnoc(body, op1, lo, nx.next);
    BinaryReadsWithin(Concat, Temporary(nx.next + 1, info.ty), Temporary(nx.next, info.ty), LastTerm(nx.compose).value, IrInfo(info.line), lo, nx.next + 1);
    DefinitionSnoc(body + [op1], op2, lo, nx.next + 1);
  }

  lemma SomeWellFormed(str: Compose, shown: Compose, nx: Lowered, info: Ast.NodeInfo, lo: int, m1: int, m2: int)
    requires WellFormed(str.ops, lo, m1) && WellFormed(shown.ops, m1, m2) && WellFormed(nx.compose.ops, m2, nx.next)
    ensures LowerSome(str, shown, nx, info).Ok?
    ensures WellFormed(LowerSome(str, shown, nx, info).value.compose.ops, lo, nx.next + 2)
  {
    SomeLayout(str, shown, nx, info);
    SomeOpsWellFormed(str, shown, nx, info, lo, m1, m2);
  }



  /** Every expression that lowers gives a well-formed run over the ids it took. */
  lemma {:induction false} ExprWellFormed(e: Ast.Expr, next: nat)
    ensures LowerExpr(e, next).Ok? ==>
      WellFormed(LowerExpr(e, next).value.compose.ops, next, LowerExpr(e, next).value.next)
    decreases e, 1
  {
    match e
    case Show(_, _) => OperandWellFormed(e, next);
    case Parens(inner, _) =>
      ExprWellFormed(inner, next);
    case Neg(_, _) => OperandWellFormed(e, next);
    case Not(_, _) => OperandWellFormed(e, next);
    case Bitwise(_, _, _, _) => OperandsWellFormed(e, next);
    case Arith(_, _, _, _) => OperandsWellFormed(e, next);
    case Comp(_, _, _, _) => OperandsWellFormed(e, next);
    case Concat(_, _, _, _) => OperandsWellFormed(e, next);
    case IntLit(_, info) => ConstWellFormed(info, LitConst(e), next);
    case FloatLit(_, info) => ConstWellFormed(info, LitConst(e), next);
    case BoolLit(_, info) => ConstWellFormed(info, LitConst(e), next);
    case StrLit(s, info) => ConstWellFormed(info, OfStr(QuotedOnce(s)), next);
    case NilLit(info) => ConstWellFormed(info, LitConst(e), next);
    case TableLit(_, _, _) =>
      TableLitWellFormed(e, next);
      TableStep(e, next);
    case OfInterpol(i) =>
      InterpolWellFormed(i, next);
    case Empty(_) =>
  }

  /** The operand well formed, then the code. */
  lemma {:induction false} OperandWellFormed(e: Ast.Expr, next: nat)
    requires e.Show? || e.Neg? || e.Not?
    ensures LowerExpr(e, next).Ok? ==>
      WellFormed(LowerExpr(e, next).value.compose.ops, next, LowerExpr(e, next).value.next)
    decreases e, 0
  {
    ExprWellFormed(e.operand, next);
    var o := LowerExpr(e.operand, next);
    if o.Ok? {
      match e
      case Show(_, info) => UnaryWellFormed(Show, o.value, info, info.line, next);
      case Neg(_, info) => UnaryWellFormed(Neg, o.value, info, info.line, next);
      case Not(_, info) => UnaryWellFormed(Not, o.value, info, info.line, next);
    }
  }

  /** The keys, then the values, then the table and its `TableSet`s. */
  lemma {:induction false} TableLitWellFormed(e: Ast.Expr, next: nat)
    requires e.TableLit?
    ensures LowerAll(e.keys, next).Ok? && LowerAll(e.vals, LowerAll(e.keys, next).value.next).Ok? ==>
      var ks := LowerAll(e.keys, next).value;
      var vs := LowerAll(e.vals, ks.next).value;
      && LowerTable(ks.composes, vs, e.info).Ok?
      && WellFormed(LowerTable(ks.composes, vs, e.info).value.compose.ops, next, vs.next + 1)
    decreases e, 0
  {
    AllExprsWellFormed(e.keys, next);
    var ks := LowerAll(e.keys, next);
    if ks.Ok? {
      AllExprsWellFormed(e.vals, ks.value.next);
      var vs := LowerAll(e.vals, ks.value.next);
      if vs.Ok? {
        TableWellFormed(ks.value.composes, vs.value, e.info, next, ks.value.next);
      }
    }
  }

  /**
   * A table literal lowers only when its keys and then its values do, and
   * then it is the table built from them.
   */
  lemma TableStep(e: Ast.Expr, next: nat)
    requires e.TableLit?
    ensures LowerExpr(e, next).Ok? ==>
      LowerAll(e.keys, next).Ok? && LowerAll(e.vals, LowerAll(e.keys, next).value.next).Ok?
    ensures LowerAll(e.keys, next).Ok? && LowerAll(e.vals, LowerAll(e.keys, next).value.next).Ok? ==>
      LowerExpr(e, next)
      == LowerTable(LowerAll(e.keys, next).value.composes, LowerAll(e.vals, LowerAll(e.keys, next).value.next).value, e.info)
  {
    match e
    case TableLit(keys, vals, info) =>
      var ks := LowerAll(keys, next);
      if ks.Ok? && LowerAll(vals, ks.value.next).Ok? {
        assert LowerExpr(e, next) == LowerTable(ks.value.composes, LowerAll(vals, ks.value.next).value, info);
      }
  }

  /** A table literal lowers exactly when its keys and then its values do. */
  lemma TableLitLowers(e: Ast.Expr, next: nat)
    requires e.TableLit?
    ensures LowerExpr(e, next).Ok? <==>
      LowerAll(e.keys, next).Ok? && LowerAll(e.vals, LowerAll(e.keys, next).value.next).Ok?
  {
    TableLitWellFormed(e, next);
  }

  /** Both operands well formed, one after the other, then the code. */
  lemma {:induction false} OperandsWellFormed(e: Ast.Expr, next: nat)
    requires e.Bitwise? || e.Arith? || e.Comp? || e.Concat?
    ensures LowerExpr(e, next).Ok? ==>
      WellFormed(LowerExpr(e, next).value.compose.ops, next, LowerExpr(e, next).value.next)
    decreases e, 0
  {
    ExprWellFormed(e.left, next);
    var a := LowerExpr(e.left, next);
    if a.Ok? {
      ExprWellFormed(e.right, a.value.next);
      var b := LowerExpr(e.right, a.value.next);
      if b.Ok? {
        match e
        case Bitwise(op, _, _, info) => BinaryWellFormed(BitwiseKind(op), a.value, b.value, info, next);
        case Arith(op, _, _, info) => BinaryWellFormed(ArithKind(op), a.value, b.value, info, next);
        case Comp(op, _, _, info) => BinaryWellFormed(CompKind(op), a.value, b.value, info, next);
        case Concat(_, _, _, info) => BinaryWellFormed(Concat, a.value, b.value, info, next);
      }
    }
  }

  lemma {:induction false} AllExprsWellFormed(es: seq<Ast.Expr>, next: nat)
    ensures LowerAll(es, next).Ok? ==>
      AllWellFormed(LowerAll(es, next).value.composes, next, LowerAll(es, next).value.next)
    decreases es, 1
  {
    if |es| == 0 {
      AllWellFormedNil(next);
    } else {
      ExprWellFormed(es[0], next);
      var first := LowerExpr(es[0], next);
      if first.Ok? {
        AllExprsWellFormed(es[1..], first.value.next);
        var rest := LowerAll(es[1..], first.value.next);
        if rest.Ok? {
          AllWellFormedCons(first.value.compose, rest.value.composes, next, first.value.next, rest.value.next);
        }
      }
    }
  }

  lemma {:induction false} InterpolWellFormed(i: Ast.Interpol, next: nat)
    ensures LowerInterpol(i, next).Ok? ==>
      WellFormed(LowerInterpol(i, next).value.compose.ops, next, LowerInterpol(i, next).value.next)
    decreases i, 1
  {
    match i
    case End(s, info) =>
      ConstWellFormed(info, OfStr(QuotedOnce(s)), next);
    case Some(_, _, _, _) =>
      SomePieceWellFormed(i, next);
  }

  /** A lowered expression leaves code behind: its value is the last operation's term. */
  lemma ExprNonEmpty(e: Ast.Expr, next: nat)
    ensures LowerExpr(e, next).Ok? ==> |LowerExpr(e, next).value.compose.ops| > 0
  {
    ExprWellFormed(e, next);
  }

  lemma InterpolNonEmpty(i: Ast.Interpol, next: nat)
    ensures LowerInterpol(i, next).Ok? ==> |LowerInterpol(i, next).value.compose.ops| > 0
  {
    InterpolWellFormed(i, next);
  }

  /** A piece that lowers has an expression that lowers. */
  lemma SomePieceExprLowers(i: Ast.Interpol, next: nat)
    requires i.Some? && LowerInterpol(i, next).Ok?
    ensures LowerExpr(i.expr, next + 1).Ok?
  {
  }

  /** A piece that lowers has a rest that lowers, from after its expression and the shown value. */
  lemma SomePieceRestLowers(i: Ast.Interpol, next: nat)
    requires i.Some? && LowerInterpol(i, next).Ok? && LowerExpr(i.expr, next + 1).Ok?
    ensures LowerInterpol(i.next, LowerExpr(i.expr, next + 1).value.next + 1).Ok?
  {
    var ex := LowerExpr(i.expr, next + 1).value;
    assert LowerUnary(Show, ex, i.info, Ast.LineOf(i.expr)).value.next == ex.next + 1 by {
      UnaryLayout(Show, ex, i.info, Ast.LineOf(i.expr));
    }
  }

  /** A piece whose expression and rest lower, lowers. */
  lemma SomePieceLowersFrom(i: Ast.Interpol, next: nat)
    requires i.Some? && LowerExpr(i.expr, next + 1).Ok?
    requires LowerInterpol(i.next, LowerExpr(i.expr, next + 1).value.next + 1).Ok?
    ensures LowerInterpol(i, next).Ok?
  {
    var ex := LowerExpr(i.expr, next + 1).value;
    ExprNonEmpty(i.expr, next + 1);
    UnaryLayout(Show, ex, i.info, Ast.LineOf(i.expr));
    var shown := LowerUnary(Show, ex, i.info, Ast.LineOf(i.expr)).value;
    InterpolNonEmpty(i.next, ex.next + 1);
    SomeLayout(NewStr(i.info, i.str, next).compose, shown.compose, LowerInterpol(i.next, shown.next).value, i.info);
    SomeStep(i.str, i.expr, i.next, i.info, next);
  }

  /** A piece whose expression, shown form and rest lower is the join `LowerSome` makes of them. */
  lemma SomeStep(s: string, expr: Ast.Expr, rest: Ast.Interpol, info: Ast.NodeInfo, next: nat)
    requires LowerExpr(expr, next + 1).Ok?
    requires LowerUnary(Show, LowerExpr(expr, next + 1).value, info, Ast.LineOf(expr)).Ok?
    requires LowerInterpol(rest, LowerUnary(Show, LowerExpr(expr, next + 1).value, info, Ast.LineOf(expr)).value.next).Ok?
    ensures var shown := LowerUnary(Show, LowerExpr(expr, next + 1).value, info, Ast.LineOf(expr)).value;
      LowerInterpol(Ast.Some(s, expr, rest, info), next) ==
      LowerSome(NewStr(info, s, next).compose, shown.compose, LowerInterpol(rest, shown.next).value, info)
  {
  }

  /** A piece with an expression: its string, the shown expression and the rest, all well formed. */
  lemma {:induction false} SomePieceWellFormed(i: Ast.Interpol, next: nat)
    requires i.Some?
    ensures LowerInterpol(i, next).Ok? ==>
      WellFormed(LowerInterpol(i, next).value.compose.ops, next, LowerInterpol(i, next).value.next)
    decreases i, 0
  {
    var str := NewStr(i.info, i.str, next);
    ConstWellFormed(i.info, OfStr(QuotedOnce(i.str)), next);
    ExprWellFormed(i.expr, str.next);
    var ex := LowerExpr(i.expr, str.next);
    if ex.Ok? {
      UnaryWellFormed(Show, ex.value, i.info, Ast.LineOf(i.expr), str.next);
      var shown := LowerUnary(Show, ex.value, i.info, Ast.LineOf(i.expr)).value;
      InterpolWellFormed(i.next, shown.next);
      var nx := LowerInterpol(i.next, shown.next);
      if nx.Ok? {
        SomeStep(i.str, i.expr, i.next, i.info, next);
        SomeWellFormed(str.compose, shown.compose, nx.value, i.info, next, str.next, shown.next);
      }
    }
  }

  // ---------------------------------------------------------------------
  // Statements, functions and the whole program

  /**
   * `visitStmt` on `Print`: the expression's code, then a `Print` of its
   * value; it fails exactly when the expression does or leaves no code.
   */
  lemma PrintLayout(e: Ast.Expr, line: int, next: nat)
    ensures LowerStmt(Ast.Print(e, line), next).Ok? <==>
      LowerExpr(e, next).Ok? && |LowerExpr(e, next).value.compose.ops| > 0
    ensures LowerStmt(Ast.Print(e, line), next).Ok? ==>
      var x := LowerExpr(e, next).value;
      && LowerStmt(Ast.Print(e, line), next).value.next == x.next
      && LowerStmt(Ast.Print(e, line), next).value.compose.ops
         == x.compose.ops + [Print(LastTerm(x.compose).value, IrInfo(line))]
  {
  }

  lemma StmtWellFormed(s: Ast.Stmt, next: nat)
    ensures LowerStmt(s, next).Ok? ==>
      WellFormed(LowerStmt(s, next).value.compose.ops, next, LowerStmt(s, next).value.next)
  {
    ExprWellFormed(s.expr, next);
    if s.Print? && LowerExpr(s.expr, next).Ok? {
      PrintLayout(s.expr, s.line, next);
      var x := LowerExpr(s.expr, next).value;
      PrintReadsWithin(LastTerm(x.compose).value, IrInfo(s.line), next, x.next);
      ReaderSnoc(x.compose.ops, Print(LastTerm(x.compose).value, IrInfo(s.line)), next, x.next);
    }
  }

  /** One lowered node per declaration, together well formed. */
  lemma {:induction false} DeclsWellFormed(ds: seq<Ast.Decl>, next: nat)
    ensures LowerDecls(ds, next).Ok? ==>
      && |LowerDecls(ds, next).value.composes| == |ds|
      && AllWellFormed(LowerDecls(ds, next).value.composes, next, LowerDecls(ds, next).value.next)
    decreases |ds|
  {
    if |ds| == 0 {
      AllWellFormedNil(next);
    } else {
      StmtWellFormed(ds[0].stmt, next);
      var first := LowerStmt(ds[0].stmt, next);
      if first.Ok? {
        DeclsWellFormed(ds[1..], first.value.next);
        var rest := LowerDecls(ds[1..], first.value.next);
        if rest.Ok? {
          AllWellFormedCons(first.value.compose, rest.value.composes, next, first.value.next, rest.value.next);
        }
      }
    }
  }

  /** A block whose operations define `lo`, …, `hi - 1` in order and read only what they defined earlier. */
  predicate BlockWellFormed(b: Block, lo: int, hi: int)
  {
    DefinesRange(b.ops, lo, hi) && ReadsDefined(b.ops, lo)
  }

  /**
   * `visitFun`: one basic block with the given block id and the
   * function's name; a function without declarations is refused with
   * `UnsupportedOperationException`, and one whose declarations lower is
   * lowered.
   */
  lemma FunLayout(name: string, decls: seq<Ast.Decl>, next: nat, nextBlock: nat)
    ensures |decls| == 0 ==> LowerFun(name, decls, next, nextBlock) == Err(UnsupportedOperationException)
    ensures |decls| > 0 && LowerDecls(decls, next).Ok? ==> LowerFun(name, decls, next, nextBlock).Ok?
    ensures LowerFun(name, decls, next, nextBlock).Ok? ==>
      var f := LowerFun(name, decls, next, nextBlock).value;
      var ds := LowerDecls(decls, next).value;
      && f.0.mangledName == name
      && f.0.blocks == [Block(nextBlock, "bb", Flatten(ds.composes))]
      && f.1 == Lowered(Compose(Flatten(ds.composes)), ds.next)
  {
    DeclsWellFormed(decls, next);
    if LowerDecls(decls, next).Ok? && |LowerDecls(decls, next).value.composes| > 0 {
      ReduceFlattens(LowerDecls(decls, next).value.composes);
    }
  }

  /** A lowered function's block defines the temporaries the counter handed out, in order, each before its use. */
  lemma FunWellFormed(name: string, decls: seq<Ast.Decl>, next: nat, nextBlock: nat)
    ensures LowerFun(name, decls, next, nextBlock).Ok? ==>
      var f := LowerFun(name, decls, next, nextBlock).value;
      |f.0.blocks| == 1 && BlockWellFormed(f.0.blocks[0], next, f.1.next)
  {
    FunLayout(name, decls, next, nextBlock);
    DeclsWellFormed(decls, next);
  }

  /**
   * Functions one after the other: each is one basic block, numbered from
   * `nextBlock` up, and each defines the temporaries that follow those of
   * the functions before it.
   */
  predicate FunsWellFormed(fs: seq<FunStats.IrFun>, lo: int, nextBlock: int)
    decreases |fs|
  {
    |fs| == 0 ||
      (&& |fs[0].blocks| == 1
       && fs[0].blocks[0].id == nextBlock && fs[0].blocks[0].desiredName == "bb"
       && var mid := lo + |DefIds(fs[0].blocks[0].ops)|;
       && BlockWellFormed(fs[0].blocks[0], lo, mid)
       && FunsWellFormed(fs[1..], mid, nextBlock + 1))
  }

  /** One function per declaration, each a `Fun`, with its name, in order. */
  predicate NamesFollow(fs: seq<FunStats.IrFun>, tops: seq<Ast.Top>)
    decreases |tops|
  {
    |fs| == |tops| &&
      (|tops| == 0 || (tops[0].Fun? && fs[0].mangledName == tops[0].name && NamesFollow(fs[1..], tops[1..])))
  }

  /** Names that follow their declarations: the function at each position is named as the declaration there. */
  lemma {:induction false} NamesFollowAt(fs: seq<FunStats.IrFun>, tops: seq<Ast.Top>, i: int)
    requires NamesFollow(fs, tops) && 0 <= i < |tops|
    ensures i < |fs| && tops[i].Fun? && fs[i].mangledName == tops[i].name
    decreases |tops|
  {
    if i > 0 {
      NamesFollowAt(fs[1..], tops[1..], i - 1);
    }
  }

  lemma NamesFollowCons(f: FunStats.IrFun, fs: seq<FunStats.IrFun>, tops: seq<Ast.Top>)
    requires |tops| > 0 && tops[0].Fun? && f.mangledName == tops[0].name && NamesFollow(fs, tops[1..])
    ensures NamesFollow([f] + fs, tops)
  {
    assert ([f] + fs)[0] == f && ([f] + fs)[1..] == fs;
  }

  /** `visitTop` over the declarations advances the block counter by their number. */
  lemma {:induction false} TopsBlocks(tops: seq<Ast.Top>, next: nat, nextBlock: nat)
    ensures LowerTops(tops, next, nextBlock).Ok? ==>
      LowerTops(tops, next, nextBlock).value.nextBlock == nextBlock + |tops|
    decreases |tops|
  {
    if |tops| > 0 && tops[0].Fun? && LowerTops(tops, next, nextBlock).Ok? {
      TopsCons(tops, next, nextBlock);
      TopsBlocks(tops[1..], LowerFun(tops[0].name, tops[0].decls, next, nextBlock).value.1.next, nextBlock + 1);
    }
  }

  /**
   * `visitTop` over the declarations: an `EmptyTop` is refused; otherwise
   * one function per declaration, with its name, in order.
   */
  lemma {:induction false} TopsNames(tops: seq<Ast.Top>, next: nat, nextBlock: nat)
    ensures LowerTops(tops, next, nextBlock).Ok? ==>
      NamesFollow(LowerTops(tops, next, nextBlock).value.functions, tops)
    decreases |tops|
  {
    if |tops| > 0 && tops[0].Fun? && LowerTops(tops, next, nextBlock).Ok? {
      TopsCons(tops, next, nextBlock);
      var f := LowerFun(tops[0].name, tops[0].decls, next, nextBlock).value;
      FunName(tops[0].name, tops[0].decls, next, nextBlock);
      TopsNames(tops[1..], f.1.next, nextBlock + 1);
      NamesFollowCons(f.0, LowerTops(tops[1..], f.1.next, nextBlock + 1).value.functions, tops);
    }
  }

  /** A leading `Top.Empty` is refused. */
  lemma EmptyTopRefused(tops: seq<Ast.Top>, next: nat, nextBlock: nat)
    requires |tops| > 0 && tops[0].EmptyTop?
    ensures LowerTops(tops, next, nextBlock) == Err(IllegalArgumentException)
  {
  }

  /** A run of declarations that lowers: its head function, then the rest. */
  lemma TopsCons(tops: seq<Ast.Top>, next: nat, nextBlock: nat)
    requires |tops| > 0 && tops[0].Fun? && LowerTops(tops, next, nextBlock).Ok?
    ensures LowerFun(tops[0].name, tops[0].decls, next, nextBlock).Ok?
    ensures var f := LowerFun(tops[0].name, tops[0].decls, next, nextBlock).value;
      var rest := LowerTops(tops[1..], f.1.next, nextBlock + 1);
      && rest.Ok?
      && LowerTops(tops, next, nextBlock).value ==
        LoweredFuns([f.0] + rest.value.functions, rest.value.next, rest.value.nextBlock)
  {
  }

  /** A lowered function is named as its declaration. */
  lemma FunName(name: string, decls: seq<Ast.Decl>, next: nat, nextBlock: nat)
    ensures LowerFun(name, decls, next, nextBlock).Ok? ==> LowerFun(name, decls, next, nextBlock).value.0.mangledName == name
  {
    FunLayout(name, decls, next, nextBlock);
  }

  /** The head function of a lowered run of declarations. */
  lemma HeadFunWellFormed(name: string, decls: seq<Ast.Decl>, next: nat, nextBlock: nat)
    ensures LowerFun(name, decls, next, nextBlock).Ok? ==>
      var f := LowerFun(name, decls, next, nextBlock).value;
      && |f.0.blocks| == 1
      && f.0.blocks[0].id == nextBlock && f.0.blocks[0].desiredName == "bb"
      && next + |DefIds(f.0.blocks[0].ops)| == f.1.next
      && BlockWellFormed(f.0.blocks[0], next, f.1.next)
  {
    FunLayout(name, decls, next, nextBlock);
    FunWellFormed(name, decls, next, nextBlock);
  }

  lemma FunsWellFormedCons(f: FunStats.IrFun, fs: seq<FunStats.IrFun>, lo: int, mid: int, nextBlock: int)
    requires |f.blocks| == 1 && f.blocks[0].id == nextBlock && f.blocks[0].desiredName == "bb"
    requires lo + |DefIds(f.blocks[0].ops)| == mid && BlockWellFormed(f.blocks[0], lo, mid)
    requires FunsWellFormed(fs, mid, nextBlock + 1)
    ensures FunsWellFormed([f] + fs, lo, nextBlock)
  {
    assert ([f] + fs)[0] == f && ([f] + fs)[1..] == fs;
  }

  /** The functions of lowered declarations, together, are well formed from the given counters. */
  lemma {:induction false} TopsWellFormed(tops: seq<Ast.Top>, next: nat, nextBlock: nat)
    ensures LowerTops(tops, next, nextBlock).Ok? ==>
      FunsWellFormed(LowerTops(tops, next, nextBlock).value.functions, next, nextBlock)
    decreases |tops|
  {
    if |tops| > 0 && tops[0].Fun? {
      var t := tops[0];
      HeadFunWellFormed(t.name, t.decls, next, nextBlock);
      var f := LowerFun(t.name, t.decls, next, nextBlock);
      if f.Ok? {
        TopsWellFormed(tops[1..], f.value.1.next, nextBlock + 1);
        var rest := LowerTops(tops[1..], f.value.1.next, nextBlock + 1);
        if rest.Ok? {
          FunsWellFormedCons(f.value.0, rest.value.functions, next, f.value.1.next, nextBlock);
        }
      }
    }
  }

  /**
   * `perform`: the module's functions in declaration order, their blocks
   * numbered 0, 1, …, and the temporaries numbered from 0 across the whole
   * module, each defined once and before it is read.
   */
  lemma PerformWellFormed(p: Ast.Program)
    ensures |p.decls| > 0 && p.decls[0].EmptyTop? ==> Perform(p) == Err(IllegalArgumentException)
    ensures Perform(p).Ok? ==>
      && NamesFollow(Perform(p).value.functions, p.decls)
      && FunsWellFormed(Perform(p).value.functions, 0, 0)
  {
    if |p.decls| > 0 && p.decls[0].EmptyTop? {
      EmptyTopRefused(p.decls, 0, 0);
    }
    TopsNames(p.decls, 0, 0);
    TopsWellFormed(p.decls, 0, 0);
  }
}
