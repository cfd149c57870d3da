/**
 * The structures of the warm IR (`ir/structure`, `ir/term/warm`): terms,
 * constants, three-address codes, operations, blocks, and the equality the
 * compiler uses for constants and operations.
 */
module Ir {
  import KotlinInt
  import Types

  /**
   * A Kotlin `Float`, kept symbolic: a literal (by its exact decimal value)
   * or the arithmetic that produced it. Rounding to 32 bits, NaN, the
   * infinities and the sign of zero are not modelled, so two values are
   * equal exactly when they are built alike.
   */
  datatype Float32 =
    | FloatLit(value: real)
    | FloatNeg(operand: Float32)
    | FloatAdd(left: Float32, right: Float32)
    | FloatSub(left: Float32, right: Float32)
    | FloatMul(left: Float32, right: Float32)
    | FloatDiv(left: Float32, right: Float32)

  /** A term: something that holds a value, identified by its id. */
  datatype Term = Term(id: int, desiredName: string, termType: Types.Type)

  /** `Term.temporary`: a term the compiler introduced, named `"t"`. */
  function Temporary(id: int, termType: Types.Type): Term
  {
    Term(id, "t", termType)
  }

  /** The source line an IR structure came from. */
  datatype IrInfo = IrInfo(line: int)

  /** The constants of the IR. */
  datatype IrConst =
    | OfInt(intValue: KotlinInt.Int32)
    | OfFloat(floatValue: Float32)
    | OfBool(boolValue: bool)
    | OfStr(strValue: string)
    | OfTable(keys: seq<IrConst>, vals: seq<IrConst>)
    | OfEmptyTable
    | OfNil

  /**
   * Every `IrConst` variant is a Kotlin `data class` or `data object`, so
   * the `equals` and `hashCode` the compiler generates for each variant are
   * the ones that run: two constants are equal exactly when they are the
   * same variant with equal fields, and tables compare their whole key and
   * value lists. That is Dafny's `==` on `IrConst`. `IrConst.kt` also
   * declares an `equals` that compares tables over the shorter of their
   * lists, and a `hashCode` of the variant's class alone; neither is
   * `final`, so every variant's generated members shadow them.
   * `DeclaredEquals` is that shadowed `equals`, kept only to show how it
   * differs.
   */
  predicate DeclaredEquals(a: IrConst, b: IrConst)
  {
    match a
    case OfInt(x) => b.OfInt? && b.intValue == x
    case OfFloat(x) => b.OfFloat? && b.floatValue == x
    case OfBool(x) => b.OfBool? && b.boolValue == x
    case OfStr(x) => b.OfStr? && b.strValue == x
    case OfNil => b.OfNil?
    case OfEmptyTable => b.OfEmptyTable?
    case OfTable(ks, vs) =>
      && b.OfTable?
      && (forall i :: 0 <= i < |ks| && i < |b.keys| ==> DeclaredEquals(ks[i], b.keys[i]))
      && (forall i :: 0 <= i < |vs| && i < |b.vals| ==> DeclaredEquals(vs[i], b.vals[i]))
  }

  /**
   * The shadowed `equals` would call a table equal to every table that
   * extends it, and is not transitive; the equality that runs keeps such
   * tables apart. Outside tables the two agree.
   */
  lemma DeclaredEqualsIsShadowed()
    ensures
      var t := OfTable([OfInt(1)], [OfInt(2)]);
      var u := OfTable([OfInt(1), OfInt(3)], [OfInt(2), OfInt(4)]);
      DeclaredEquals(t, u) && t != u
    ensures DeclaredEquals(OfTable([], []), OfTable([OfInt(1)], [OfInt(2)]))
    ensures DeclaredEquals(OfTable([], []), OfTable([OfInt(3)], [OfInt(4)]))
    ensures !DeclaredEquals(OfTable([OfInt(1)], [OfInt(2)]), OfTable([OfInt(3)], [OfInt(4)]))
  {
    var t := OfTable([OfInt(1)], [OfInt(2)]);
    var u := OfTable([OfInt(3)], [OfInt(4)]);
    assert !DeclaredEquals(t.keys[0], u.keys[0]);
  }

  /** Outside tables, the shadowed `equals` and the generated one agree. */
  lemma DeclaredEqualsAgreesOnScalars(a: IrConst, b: IrConst)
    requires !a.OfTable?
    ensures DeclaredEquals(a, b) <==> a == b
  {
  }

  /** With the generated equality, tables whose key lists differ in length are never equal. */
  lemma {:induction false} TablesOfOtherLengthDiffer(a: IrConst, b: IrConst)
    requires a.OfTable? && b.OfTable? && |a.keys| != |b.keys|
    ensures a != b
  {
  }

  /** The one-operand three-address codes. */
  datatype UnaryKind = Neg | Not | Show

  /** The two-operand three-address codes, except `TableSet`. */
  datatype BinaryKind =
    | Add | Sub | Mul | Div
    | Shl | Shr | BitAnd | BitOr | BitXor
    | Neq | Eq | Gt | Gte | Lt | Lte
    | Concat

  /**
   * A three-address code. The twenty Kotlin variants are grouped by shape:
   * `to` always receives the result.
   */
  datatype Tac =
    | Unary(unary: UnaryKind, to: Term, term: Term, info: IrInfo)
    | Binary(binary: BinaryKind, to: Term, left: Term, right: Term, info: IrInfo)
    | TableSet(to: Term, key: Term, value: Term, info: IrInfo)

  /** `Tac.allTerms`: the receiver first, then the operands. */
  function TacAllTerms(t: Tac): seq<Term>
  {
    match t
    case Unary(_, to, term, _) => [to, term]
    case Binary(_, to, l, r, _) => [to, l, r]
    case TableSet(to, k, v, _) => [to, k, v]
  }

  /** `Tac.isDefinition`: every code but `TableSet` defines its receiver. */
  predicate TacIsDefinition(t: Tac)
  {
    !t.TableSet?
  }

  /** An IR operation. `const` is a keyword, hence the field name `constant`. */
  datatype Op =
    | Ret(term: Term, info: IrInfo)
    | Print(term: Term, info: IrInfo)
    | OfTac(tac: Tac)
    | Const(to: Term, constant: IrConst, info: IrInfo)
    | Dummy(term: Term)

  /** `Op.term`: the term an operation is about. */
  function OpTerm(op: Op): Term
  {
    match op
    case Ret(t, _) => t
    case Print(t, _) => t
    case OfTac(tac) => tac.to
    case Const(to, _, _) => to
    case Dummy(t) => t
  }

  /** `Op.allTerms`: every term the operation mentions; a dummy mentions none. */
  function OpAllTerms(op: Op): seq<Term>
  {
    match op
    case Ret(t, _) => [t]
    case Print(t, _) => [t]
    case OfTac(tac) => TacAllTerms(tac)
    case Const(to, _, _) => [to]
    case Dummy(_) => []
  }

  /** `Op.isDefinition`: constants, and codes other than `TableSet`, define their term. */
  predicate OpIsDefinition(op: Op)
  {
    match op
    case Const(_, _, _) => true
    case OfTac(tac) => TacIsDefinition(tac)
    case _ => false
  }

  /** `allTerms().drop(1)`: the terms an operation reads besides its own term. */
  function Operands(op: Op): (r: seq<Term>)
    ensures |r| == if |OpAllTerms(op)| == 0 then 0 else |OpAllTerms(op)| - 1
  {
    var all := OpAllTerms(op);
    if |all| == 0 then [] else all[1..]
  }

  /**
   * How `term`, `allTerms` and `isDefinition` fit together: every operation
   * but a dummy lists its own term first, only three-address codes have
   * operands, and exactly the codes with a receiver define it.
   */
  lemma OpShape(op: Op)
    ensures op.Dummy? <==> |OpAllTerms(op)| == 0
    ensures !op.Dummy? ==> OpAllTerms(op)[0] == OpTerm(op)
    ensures !op.Dummy? ==> OpAllTerms(op) == [OpTerm(op)] + Operands(op)
    ensures |Operands(op)| > 0 ==> op.OfTac?
    ensures op.OfTac? ==> |Operands(op)| == (if op.tac.Unary? then 1 else 2)
    ensures OpIsDefinition(op) <==> op.Const? || (op.OfTac? && !op.tac.TableSet?)
  {
  }

  /** A basic block: its id, its name and its operations. */
  datatype Block = Block(id: int, desiredName: string, ops: seq<Op>)

  /** `Block.basic`: a block named `"bb"`. */
  function Basic(id: int, ops: seq<Op>): Block
  {
    Block(id, "bb", ops)
  }

  /** The operations of all blocks, in order. */
  function FlattenOps(blocks: seq<Block>): (r: seq<Op>)
    ensures |blocks| == 1 ==> r == blocks[0].ops
  {
    if |blocks| == 0 then [] else blocks[0].ops + FlattenOps(blocks[1..])
  }

  /** Flattening distributes over concatenation of block lists. */
  lemma {:induction false} FlattenAppend(a: seq<Block>, b: seq<Block>)
    ensures FlattenOps(a + b) == FlattenOps(a) + FlattenOps(b)
  {
    if |a| > 0 {
      assert (a + b)[1..] == a[1..] + b;
      FlattenAppend(a[1..], b);
    } else {
      assert a + b == b;
    }
  }
}
