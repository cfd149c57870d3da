/**
 * The lexer of `lex/Lex.kt` as functions of the text and the lexer's
 * state: the cursor, the captured characters and the interpolation state.
 * The `Lex` class is proved to follow these functions step by step.
 */
module LexSpec {
  import opened Wrappers
  import opened TokKinds
  import Toks
  import opened Interpolation

  /** The lexer's mutable state: the cursor, the captured lexeme and the interpolation state. */
  datatype LexState = LexState(at: nat, captured: string, after: bool, depth: int)

  /** A produced token and the state after producing it. */
  datatype Lexed = Lexed(tok: Tok, st: LexState)

  predicate IsDigit(c: char) { '0' <= c <= '9' }
  predicate IsLetter(c: char) { 'a' <= c <= 'z' || 'A' <= c <= 'Z' }
  predicate IsAlpha(c: char) { IsLetter(c) || c == '_' }
  /** Whitespace other than newlines. */
  predicate IsInsignificant(c: char) { c == ' ' || c == '\t' || c == '\r' }
  predicate NotNewline(c: char) { c != '\n' }

  /**
   * The cursor within the text and the interpolation depth within its
   * bounds; right after an interpolation ends the depth is below the maximum.
   */
  predicate Good(text: string, st: LexState)
  {
    st.at <= |text| && 0 <= st.depth <= MaxInterpolDepth && (st.after ==> st.depth < MaxInterpolDepth)
  }

  function Peek(text: string, st: LexState): (r: Option<char>)
    requires st.at <= |text|
    ensures r.Some? <==> st.at < |text|
  {
    if st.at < |text| then Some(text[st.at]) else None
  }

  function PeekN(text: string, st: LexState, n: nat): (r: Option<string>)
    requires st.at <= |text|
    ensures r.Some? <==> st.at + n <= |text|
    ensures r.Some? ==> |r.value| == n
  {
    if n <= |text| - st.at then Some(text[st.at..st.at + n]) else None
  }

  predicate AtEnd(text: string, st: LexState) { st.at >= |text| }

  /** `check(c)`: the next character is `c`, or the text is exhausted. */
  predicate Check(text: string, st: LexState, c: char)
    requires st.at <= |text|
  {
    Peek(text, st) == Some(c) || AtEnd(text, st)
  }

  predicate MatchSeq(text: string, st: LexState, s: string)
    requires st.at <= |text|
  {
    PeekN(text, st, |s|) == Some(s)
  }

  predicate IsOnDigit(text: string, st: LexState)
    requires st.at <= |text|
  {
    Peek(text, st).Some? && IsDigit(Peek(text, st).value)
  }

  /** A `.` followed by a digit. */
  predicate IsOnFloat(text: string, st: LexState)
    requires st.at <= |text|
  {
    Check(text, st, '.') && PeekN(text, st, 2).Some? && IsDigit(PeekN(text, st, 2).value[1])
  }

  predicate IsOnAlpha(text: string, st: LexState)
    requires st.at <= |text|
  {
    (Peek(text, st).Some? && IsLetter(Peek(text, st).value)) || Check(text, st, '_')
  }

  /** Moves past one character, capturing it; nothing happens at the end. */
  function Advance(text: string, st: LexState): (r: LexState)
    requires st.at <= |text|
    ensures r.at <= |text| && r.after == st.after && r.depth == st.depth
    ensures st.at < |text| ==> r.at == st.at + 1 && r.captured == st.captured + [text[st.at]]
    ensures st.at == |text| ==> r == st
  {
    if st.at < |text| then st.(at := st.at + 1, captured := st.captured + [text[st.at]]) else st
  }

  function Sync(st: LexState): LexState { st.(captured := []) }

  /** Advances past every character satisfying `p`, capturing them. */
  function TakeWhile(text: string, st: LexState, p: char -> bool): (r: LexState)
    requires st.at <= |text|
    ensures st.at <= r.at <= |text| && r.after == st.after && r.depth == st.depth
    ensures forall k :: st.at <= k < r.at ==> p(text[k])
    ensures r.at < |text| ==> !p(text[r.at])
    ensures r.captured == st.captured + text[st.at..r.at]
    decreases |text| - st.at
  {
    if AtEnd(text, st) || !p(text[st.at]) then st
    else TakeWhile(text, Advance(text, st), p)
  }

  /** Advances `n` times (`capture(n)`). */
  function Capture(text: string, st: LexState, n: nat): (r: LexState)
    requires st.at + n <= |text|
    ensures r.at == st.at + n && r.after == st.after && r.depth == st.depth
    ensures r.captured == st.captured + text[st.at..st.at + n]
    decreases n
  {
    if n == 0 then st else Capture(text, Advance(text, st), n - 1)
  }

  function Err(msg: string, st: LexState): Lexed { Lexed(Tok(ERR, msg), st) }

  /** A token of `kind` whose lexeme is what has been captured. */
  function NewTok(kind: TokKind, st: LexState): Lexed { Lexed(Tok(kind, st.captured), st) }

  /** Skips the rest of a `--` comment line and its newline. */
  function SkipComment(text: string, st: LexState): (r: LexState)
    requires st.at <= |text|
    ensures st.at <= r.at <= |text| && r.after == st.after && r.depth == st.depth
  {
    Advance(text, TakeWhile(text, st, NotNewline))
  }

  /**
   * Skips insignificant whitespace and then at most one comment, unless the
   * previous token ended an interpolation.
   */
  function SkipWs(text: string, st: LexState): (r: LexState)
    requires st.at <= |text|
    ensures st.at <= r.at <= |text| && r.after == st.after && r.depth == st.depth
    ensures st.after ==> r == st
  {
    if st.after then st
    else
      var s1 := TakeWhile(text, st, IsInsignificant);
      var s2 := if MatchSeq(text, s1, "--") then SkipComment(text, s1) else s1;
      Sync(s2)
  }

  /** `deepenInterpol` followed by the token of the text before `#{`. */
  function Interpol(text: string, st: LexState): (r: Lexed)
    requires Good(text, st) && MatchSeq(text, st, "#{") && !st.after
    ensures Good(text, r.st) && r.st.at >= st.at
    ensures st.depth < MaxInterpolDepth ==> r.st.at > st.at
    ensures r.tok.kind in {ERR, INTERPOL}
  {
    if st.depth >= MaxInterpolDepth then Err("maximum string interpolation depth exceeded", st)
    else
      var deeper := st.(depth := st.depth + 1);
      var tok := Tok(INTERPOL, deeper.captured);
      var s1 := Advance(text, Advance(text, Sync(deeper)));
      if Check(text, s1, '}') then
        var s2 := Advance(text, s1);
        Err("empty string interpolation", s2.(after := true, depth := s2.depth - 1))
      else Lexed(tok, s1)
  }

  /** The body of a string up to its closing quote, or up to an interpolation. */
  function StringRest(text: string, st: LexState): (r: Lexed)
    requires Good(text, st) && !st.after
    ensures Good(text, r.st) && r.st.at >= st.at
    ensures !AtEnd(text, st) && st.depth < MaxInterpolDepth ==> r.st.at > st.at
    ensures r.tok.kind in {STR, ERR, INTERPOL}
    decreases |text| - st.at
  {
    if Check(text, st, '"') then
      if AtEnd(text, st) then Err("unterminated string", st)
      else NewTok(STR, Advance(text, st))
    else if MatchSeq(text, st, "#{") then Interpol(text, st)
    else StringRest(text, Advance(text, st))
  }

  /** A string: from its opening quote, or from the text after an interpolation. */
  function String(text: string, st: LexState, captureFirst: bool): (r: Lexed)
    requires Good(text, st) && !st.after
    ensures Good(text, r.st) && r.st.at >= st.at
    ensures !AtEnd(text, st) && (captureFirst || st.depth < MaxInterpolDepth) ==> r.st.at > st.at
    ensures r.tok.kind in {STR, ERR, INTERPOL}
  {
    StringRest(text, if captureFirst then Advance(text, st) else Sync(st))
  }

  /** A `}`: the end of an interpolation, or an error outside one. */
  function EndInterpol(text: string, st: LexState): (r: Lexed)
    requires Good(text, st) && !AtEnd(text, st)
    ensures Good(text, r.st) && r.st.at == st.at + 1
    ensures st.depth > 0 <==> r.tok.kind == INTERPOL_SEP
    ensures st.depth > 0 ==> r.st.depth == st.depth - 1 && r.st.after
    ensures st.depth <= 0 ==> r.tok == Tok(ERR, "'}' outside string interpolation") && r.st.depth == st.depth
  {
    var s1 := Advance(text, st);
    if !(st.depth > 0) then Err("'}' outside string interpolation", s1)
    else NewTok(INTERPOL_SEP, s1.(after := true, depth := s1.depth - 1))
  }

  /** Digits, optionally a `.` and more digits; a second `.` with a digit is an error. */
  function Number(text: string, st: LexState): (r: Lexed)
    requires Good(text, st)
    ensures Good(text, r.st) && r.st.at >= st.at && r.st.after == st.after && r.st.depth == st.depth
    ensures r.tok.kind in {INT, FLOAT, ERR}
  {
    var s1 := TakeWhile(text, st, IsDigit);
    var isFloat := IsOnFloat(text, s1);
    var s2 := if isFloat then TakeWhile(text, Advance(text, s1), IsDigit) else s1;
    if IsOnFloat(text, s2) then
      var s3 := TakeWhile(text, Advance(text, Sync(s2)), IsDigit);
      Err("invalid floating point number", s3)
    else NewTok(if isFloat then FLOAT else INT, s2)
  }

  /** A run of letters and underscores: a keyword kind, or `ID`. */
  function Id(text: string, st: LexState): (r: Lexed)
    requires Good(text, st)
    ensures Good(text, r.st) && r.st.at >= st.at && r.st.after == st.after && r.st.depth == st.depth
    ensures r.tok.kind != EOF && r.tok.kind != ERR
  {
    var s1 := TakeWhile(text, st, IsAlpha);
    NewTok(Toks.FindKeyword(s1.captured).GetOr(ID), s1)
  }

  /** The longest operator of at most `len` characters; an unknown character is an error. */
  function SimpleTok(text: string, st: LexState, len: nat): (r: Lexed)
    requires Good(text, st) && !AtEnd(text, st)
    ensures Good(text, r.st) && r.st.at > st.at && r.st.after == st.after && r.st.depth == st.depth
    decreases len
  {
    if len == 0 then Err("invalid character", Advance(text, st))
    else
      match PeekN(text, st, len)
      case None => SimpleTok(text, st, len - 1)
      case Some(peephole) =>
        match Toks.FindTok(peephole)
        case None => SimpleTok(text, st, len - 1)
        case Some(kind) => NewTok(kind, Capture(text, st, len))
  }

  function Newline(text: string, st: LexState): (r: Lexed)
    requires Good(text, st) && !AtEnd(text, st)
    ensures Good(text, r.st) && r.st.at == st.at + 1 && r.tok.kind == NEWLINE
  {
    NewTok(NEWLINE, Advance(text, st))
  }

  /** The token for the character under the cursor, past whitespace and any interpolation resume. */
  function Dispatch(text: string, st: LexState): (r: Lexed)
    requires Good(text, st) && !AtEnd(text, st) && !st.after
    ensures Good(text, r.st) && r.st.at > st.at && r.tok.kind != EOF
  {
    if IsOnDigit(text, st) || IsOnFloat(text, st) then
      var r := Number(text, st);
      assert r.st.at > st.at by {
        if IsOnDigit(text, st) {
          assert TakeWhile(text, st, IsDigit).at > st.at;
        }
      }
      r
    else if IsOnAlpha(text, st) then
      var r := Id(text, st);
      assert r.st.at > st.at by {
        assert TakeWhile(text, st, IsAlpha).at > st.at;
      }
      r
    else
      match text[st.at]
      case '"' => String(text, st, true)
      case '}' => EndInterpol(text, st)
      case '\n' => Newline(text, st)
      case _ => SimpleTok(text, st, Toks.MaxTokLen)
  }

  /** One token, before the peephole pass. */
  function LexNext(text: string, st: LexState): (r: Lexed)
    requires Good(text, st)
    ensures Good(text, r.st) && r.st.at >= st.at
    ensures r.tok.kind == EOF <==> AtEnd(text, SkipWs(text, st))
    ensures r.tok.kind == EOF ==> r.st.at == |text|
    ensures r.tok.kind != EOF ==> r.st.at > st.at
  {
    var s1 := SkipWs(text, st);
    if AtEnd(text, s1) then NewTok(EOF, Sync(s1))
    else if s1.after then String(text, s1.(after := false), false)
    else Dispatch(text, s1)
  }
}
