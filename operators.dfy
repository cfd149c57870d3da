/** Binary operators and their mapping from token kinds (`ast/hierarchy/binop/operator`). */
module Operators {
  import opened Wrappers
  import opened TokKinds

  datatype ArithOperator = ADD | SUB | MUL | DIV
  datatype BitwiseOperator = SHL_OP | SHR_OP | BIT_AND_OP | BIT_XOR_OP | BIT_OR_OP
  datatype CompOperator = NEQ_OP | EQ_OP | GT_OP | GTE_OP | LT_OP | LTE_OP
  /** The concatenation operators that `Lower.kt` distinguishes. */
  datatype ConcatOperator = STR_CONCAT | LIST_CONCAT

  datatype Operator =
    | OfBitwise(bitwise: BitwiseOperator)
    | OfArith(arith: ArithOperator)
    | OfComp(comp: CompOperator)
    | OfConcat(concat: ConcatOperator)

  const ArithEntries: seq<ArithOperator> := [ADD, SUB, MUL, DIV]
  const BitwiseEntries: seq<BitwiseOperator> := [SHL_OP, SHR_OP, BIT_AND_OP, BIT_XOR_OP, BIT_OR_OP]
  const CompEntries: seq<CompOperator> := [NEQ_OP, EQ_OP, GT_OP, GTE_OP, LT_OP, LTE_OP]

  predicate CanBeArith(k: TokKind) { IsInBetween(k, PLUS, SLASH) }
  predicate CanBeBitwise(k: TokKind) { IsInBetween(k, SHL, BIT_OR) }
  predicate CanBeComp(k: TokKind) { IsInBetween(k, NEQ, LTE) }

  /** `entries[kind.clampedFrom(PLUS)]`; indexing outside the enum throws, so the range is required. */
  function ArithFrom(k: TokKind): ArithOperator
    requires CanBeArith(k)
  {
    ArithEntries[ClampedFrom(k, PLUS)]
  }

  function BitwiseFrom(k: TokKind): BitwiseOperator
    requires CanBeBitwise(k)
  {
    BitwiseEntries[ClampedFrom(k, SHL)]
  }

  function CompFrom(k: TokKind): CompOperator
    requires CanBeComp(k)
  {
    CompEntries[ClampedFrom(k, NEQ)]
  }

  /** The operator a token kind denotes, tried as arithmetic, then bitwise, then comparison. */
  function From(k: TokKind): (r: Option<Operator>)
    ensures r.Some? <==> CanBeArith(k) || CanBeBitwise(k) || CanBeComp(k)
    ensures r.Some? ==> !r.value.OfConcat?
  {
    if CanBeArith(k) then Some(OfArith(ArithFrom(k)))
    else if CanBeBitwise(k) then Some(OfBitwise(BitwiseFrom(k)))
    else if CanBeComp(k) then Some(OfComp(CompFrom(k)))
    else None
  }

  /** The operator for each operator token, by name. */
  lemma FromTable(k: TokKind)
    ensures From(k) ==
      if k == PLUS then Some(OfArith(ADD))
      else if k == MINUS then Some(OfArith(SUB))
      else if k == STAR then Some(OfArith(MUL))
      else if k == SLASH then Some(OfArith(DIV))
      else if k == SHL then Some(OfBitwise(SHL_OP))
      else if k == SHR then Some(OfBitwise(SHR_OP))
      else if k == BIT_AND then Some(OfBitwise(BIT_AND_OP))
      else if k == BIT_XOR then Some(OfBitwise(BIT_XOR_OP))
      else if k == BIT_OR then Some(OfBitwise(BIT_OR_OP))
      else if k == NEQ then Some(OfComp(NEQ_OP))
      else if k == EQ then Some(OfComp(EQ_OP))
      else if k == GT then Some(OfComp(GT_OP))
      else if k == GTE then Some(OfComp(GTE_OP))
      else if k == LT then Some(OfComp(LT_OP))
      else if k == LTE then Some(OfComp(LTE_OP))
      else None
  {
  }

  /** The three ranges are disjoint, so the order of the tests in `from` does not matter. */
  lemma RangesDisjoint(k: TokKind)
    ensures !(CanBeArith(k) && CanBeBitwise(k))
    ensures !(CanBeArith(k) && CanBeComp(k))
    ensures !(CanBeBitwise(k) && CanBeComp(k))
  {
  }
}
