/** The keyword and operator tables of `lex/Toks.kt`. */
module Toks {
  import opened Wrappers
  import opened TokKinds

  const MaxTokLen: nat := 3

  function Keyword(word: string): Option<TokKind>
  {
    match word
    case "and" => Some(AND)
    case "const" => Some(CONST)
    case "do" => Some(DO)
    case "else" => Some(ELSE)
    case "end" => Some(END)
    case "for" => Some(FOR)
    case "fun" => Some(FUN)
    case "if" => Some(IF)
    case "in" => Some(IN)
    case "is" => Some(IS)
    case "let" => Some(LET)
    case "match" => Some(MATCH)
    case "or" => Some(OR)
    case "print" => Some(PRINT)
    case "return" => Some(RETURN)
    case "union" => Some(UNION)
    case "var" => Some(VAR)
    case "while" => Some(WHILE)
    case "false" => Some(FALSE)
    case "nil" => Some(NIL)
    case "not" => Some(NOT)
    case "self" => Some(SELF)
    case "true" => Some(TRUE)
    case "with" => Some(WITH)
    case "band" => Some(BIT_AND)
    case "xor" => Some(BIT_XOR)
    case "bor" => Some(BIT_OR)
    case _ => None
  }

  function OneCharTok(c: char): Option<TokKind>
  {
    match c
    case ';' => Some(SEMICOL)
    case ':' => Some(COL)
    case ',' => Some(COMMA)
    case '.' => Some(DOT)
    case '+' => Some(PLUS)
    case '-' => Some(MINUS)
    case '*' => Some(STAR)
    case '/' => Some(SLASH)
    case '>' => Some(GT)
    case '<' => Some(LT)
    case '=' => Some(ASSIGN)
    case '!' => Some(EXCLAM)
    case '?' => Some(QUESTION)
    case ')' => Some(RPAREN)
    case ']' => Some(RBRACKET)
    case '|' => Some(PIPE)
    case '(' => Some(LPAREN)
    case '[' => Some(LBRACKET)
    case _ => None
  }

  function TwoCharTok(s: string): Option<TokKind>
  {
    match s
    case ".." => Some(DOT_DOT)
    case "<<" => Some(SHL)
    case ">>" => Some(SHR)
    case "+=" => Some(PLUS_ASSIGN)
    case "-=" => Some(MINUS_ASSIGN)
    case "*=" => Some(STAR_ASSIGN)
    case "/=" => Some(SLASH_ASSIGN)
    case "!=" => Some(NEQ)
    case "==" => Some(EQ)
    case ">=" => Some(GTE)
    case "<=" => Some(LTE)
    case _ => None
  }

  function ThreeCharTok(s: string): Option<TokKind>
  {
    match s
    case "<<=" => Some(SHL_ASSIGN)
    case ">>=" => Some(SHR_ASSIGN)
    case _ => None
  }

  /** The operator with exactly this lexeme, looked up in the table for its length. */
  function FindTok(lexeme: string): (r: Option<TokKind>)
    ensures |lexeme| == 0 || |lexeme| > MaxTokLen ==> r == None
    ensures r.Some? ==> r.value != ID && r.value != ERR && r.value != EOF
  {
    if |lexeme| == 3 then ThreeCharTok(lexeme)
    else if |lexeme| == 2 then TwoCharTok(lexeme)
    else if |lexeme| == 1 then OneCharTok(lexeme[0])
    else None
  }

  /** The keyword kind spelled `lexeme`, if any. */
  function FindKeyword(lexeme: string): (r: Option<TokKind>)
    ensures r.Some? ==> r.value != ID && r.value != EOF && r.value != ERR
  {
    Keyword(lexeme)
  }

  /**
   * The key stored with `kind` in one table. Each table holds every kind at
   * most once, so the first key of Kotlin's `filterValues` is the only one.
   */
  function OneCharKey(kind: TokKind): Option<string>
  {
    if kind == SEMICOL then Some(";")
    else if kind == COL then Some(":")
    else if kind == COMMA then Some(",")
    else if kind == DOT then Some(".")
    else if kind == PLUS then Some("+")
    else if kind == MINUS then Some("-")
    else if kind == STAR then Some("*")
    else if kind == SLASH then Some("/")
    else if kind == GT then Some(">")
    else if kind == LT then Some("<")
    else if kind == ASSIGN then Some("=")
    else if kind == EXCLAM then Some("!")
    else if kind == QUESTION then Some("?")
    else if kind == RPAREN then Some(")")
    else if kind == RBRACKET then Some("]")
    else if kind == PIPE then Some("|")
    else if kind == LPAREN then Some("(")
    else if kind == LBRACKET then Some("[")
    else None
  }

  function TwoCharKey(kind: TokKind): Option<string>
  {
    if kind == DOT_DOT then Some("..")
    else if kind == SHL then Some("<<")
    else if kind == SHR then Some(">>")
    else if kind == PLUS_ASSIGN then Some("+=")
    else if kind == MINUS_ASSIGN then Some("-=")
    else if kind == STAR_ASSIGN then Some("*=")
    else if kind == SLASH_ASSIGN then Some("/=")
    else if kind == NEQ then Some("!=")
    else if kind == EQ then Some("==")
    else if kind == GTE then Some(">=")
    else if kind == LTE then Some("<=")
    else None
  }

  function ThreeCharKey(kind: TokKind): Option<string>
  {
    if kind == SHL_ASSIGN then Some("<<=")
    else if kind == SHR_ASSIGN then Some(">>=")
    else None
  }

  /** The lexeme of an operator kind: the one-, then two-, then three-char table. */
  function LexemeOf(kind: TokKind): (r: Option<string>)
  {
    match OneCharKey(kind)
    case Some(l) => Some(l)
    case None =>
      match TwoCharKey(kind)
      case Some(l) => Some(l)
      case None => ThreeCharKey(kind)
  }

  /** Each key function is the inverse of its table. */
  lemma OneCharKeyInverts(c: char, kind: TokKind)
    ensures OneCharTok(c) == Some(kind) <==> OneCharKey(kind) == Some([c])
  {
  }

  lemma TwoCharKeyInverts(s: string, kind: TokKind)
    ensures TwoCharTok(s) == Some(kind) <==> TwoCharKey(kind) == Some(s)
  {
  }

  lemma ThreeCharKeyInverts(s: string, kind: TokKind)
    ensures ThreeCharTok(s) == Some(kind) <==> ThreeCharKey(kind) == Some(s)
  {
  }

  /** An operator kind's lexeme is found again as that kind, and a found lexeme is the kind's lexeme. */
  lemma OperatorRoundTrip(lexeme: string, kind: TokKind)
    ensures FindTok(lexeme) == Some(kind) <==> LexemeOf(kind) == Some(lexeme)
  {
    OneCharKeyInverts(if |lexeme| == 1 then lexeme[0] else ' ', kind);
    TwoCharKeyInverts(lexeme, kind);
    ThreeCharKeyInverts(lexeme, kind);
    if |lexeme| == 1 {
      assert [lexeme[0]] == lexeme;
    }
  }

  /** `MaxTokLen` is the length of the longest operator. */
  lemma MaxTokLenIsLongest(kind: TokKind)
    ensures LexemeOf(kind).Some? ==> 1 <= |LexemeOf(kind).value| <= MaxTokLen
    ensures LexemeOf(SHL_ASSIGN) == Some("<<=") && |"<<="| == MaxTokLen
  {
  }

  /** Keywords carry their kinds; other words are not keywords. */
  lemma KeywordExamples()
    ensures FindKeyword("let") == Some(LET) && FindKeyword("band") == Some(BIT_AND)
    ensures FindKeyword("puts") == None && FindKeyword("Let") == None
  {
  }

  /** No operator starts with a blank, so a blank the lexer meets is an invalid character. */
  lemma NoOperatorStartsBlank(lexeme: string)
    requires |lexeme| > 0 && lexeme[0] == ' '
    ensures FindTok(lexeme) == None
  {
    if |lexeme| == 3 {
      assert lexeme != "<<=" && lexeme != ">>=" by { assert "<<="[0] == '<' && ">>="[0] == '>'; }
    }
  }
}
