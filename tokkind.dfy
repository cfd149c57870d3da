/**
 * Token kinds of `tok/TokKind.kt`, and the queries that compare their
 * ordinals.
 */
module TokKinds {

  /**
   * A kind is its ordinal: its position in the enum. The last six are named
   * by the operator tables of `lex/Toks.kt` but missing from the enum; they
   * are placed after `EOF` so that every declared kind keeps its ordinal.
   */
  newtype TokKind = k: int | 0 <= k < 72

  const SEMICOL: TokKind := 0
  const COL: TokKind := 1
  const COMMA: TokKind := 2
  const DOT: TokKind := 3
  const DOT_DOT: TokKind := 4
  const PLUS: TokKind := 5
  const MINUS: TokKind := 6
  const STAR: TokKind := 7
  const SLASH: TokKind := 8
  const SHL: TokKind := 9
  const SHR: TokKind := 10
  const BIT_AND: TokKind := 11
  const BIT_XOR: TokKind := 12
  const BIT_OR: TokKind := 13
  const NEQ: TokKind := 14
  const EQ: TokKind := 15
  const GT: TokKind := 16
  const GTE: TokKind := 17
  const LT: TokKind := 18
  const LTE: TokKind := 19
  const ASSIGN: TokKind := 20
  const EXCLAM: TokKind := 21
  const QUESTION: TokKind := 22
  const AND: TokKind := 23
  const CONST: TokKind := 24
  const DO: TokKind := 25
  const ELSE: TokKind := 26
  const END: TokKind := 27
  const FOR: TokKind := 28
  const FUN: TokKind := 29
  const IF: TokKind := 30
  const IN: TokKind := 31
  const IS: TokKind := 32
  const LET: TokKind := 33
  const MATCH: TokKind := 34
  const OR: TokKind := 35
  const PRINT: TokKind := 36
  const RETURN: TokKind := 37
  const UNION: TokKind := 38
  const VAR: TokKind := 39
  const WHILE: TokKind := 40
  const NOT_IN: TokKind := 41
  const IS_NOT: TokKind := 42
  const RPAREN: TokKind := 43
  const RBRACKET: TokKind := 44
  const PIPE: TokKind := 45
  const LPAREN: TokKind := 46
  const LBRACKET: TokKind := 47
  const ID: TokKind := 48
  const STR: TokKind := 49
  const INT: TokKind := 50
  const FLOAT: TokKind := 51
  const INTERPOL: TokKind := 52
  const FALSE: TokKind := 53
  const NIL: TokKind := 54
  const NOT: TokKind := 55
  const SELF: TokKind := 56
  const TRUE: TokKind := 57
  const WITH: TokKind := 58
  const INTERPOL_SEP: TokKind := 59
  const META_ASSERT: TokKind := 60
  const APOSTROPHE: TokKind := 61
  const TILDE: TokKind := 62
  const NEWLINE: TokKind := 63
  const ERR: TokKind := 64
  const EOF: TokKind := 65
  const PLUS_ASSIGN: TokKind := 66
  const MINUS_ASSIGN: TokKind := 67
  const STAR_ASSIGN: TokKind := 68
  const SLASH_ASSIGN: TokKind := 69
  const SHL_ASSIGN: TokKind := 70
  const SHR_ASSIGN: TokKind := 71

  /** The ordinal lies between those of `min` and `max`, both ends included. */
  predicate IsInBetween(k: TokKind, min: TokKind, max: TokKind)
  {
    min <= k <= max
  }

  predicate IsStmtStarter(k: TokKind) { IsInBetween(k, ELSE, WHILE) }

  predicate IsExprStarter(k: TokKind) { IsInBetween(k, LPAREN, WITH) }

  predicate IsTypeStarter(k: TokKind) { k == ID || k == LBRACKET || k == APOSTROPHE }

  /** How far past `base` the kind's ordinal lies. */
  function ClampedFrom(k: TokKind, base: TokKind): (d: int)
    ensures base as int + d == k as int
  {
    k as int - base as int
  }

  /** The statement starters are exactly the keywords from `else` to `while`. */
  lemma StmtStarters(k: TokKind)
    ensures IsStmtStarter(k) <==>
      k in {ELSE, END, FOR, FUN, IF, IN, IS, LET, MATCH, OR, PRINT, RETURN, UNION, VAR, WHILE}
  {
  }

  /** The expression starters run from `(` through the literal and keyword kinds to `with`. */
  lemma ExprStarters(k: TokKind)
    ensures IsExprStarter(k) <==>
      k in {LPAREN, LBRACKET, ID, STR, INT, FLOAT, INTERPOL, FALSE, NIL, NOT, SELF, TRUE, WITH}
  {
  }

  /** `isInBetween` is inclusive and empty when the bounds are reversed. */
  lemma IsInBetweenBounds(k: TokKind, min: TokKind, max: TokKind)
    ensures IsInBetween(min, min, max) <==> min <= max
    ensures max < min ==> !IsInBetween(k, min, max)
  {
  }

  /** A token of `tok/Tok.kt`, without its source location. */
  datatype Tok = Tok(kind: TokKind, lexeme: string)
}
