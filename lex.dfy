/**
 * The single-pass lexer of `lex/Lex.kt` as a class over a character cursor,
 * the interpolation state and the peephole pass. Every method is proved to
 * do what the functions of `LexSpec` and `TokenStream` describe.
 */
module Lexing {
  import opened Wrappers
  import opened TokKinds
  import Tables = Toks
  import opened LexSpec
  import opened CharCursor
  import opened Interpolation
  import opened Relexing
  import opened TokenStream

  class Lex {
    const text: string
    const chars: Chars
    const state: InterpolState
    const relex: Relex
    var captured: string
    /** `lexNext` as the callback the peephole pass is given. */
    ghost const step: LexState -> Lexed

    /** The lexer's state as the functions of `LexSpec` see it. */
    function State(): LexState
      reads this, chars, state
    {
      LexState(chars.at, captured, state.after, state.depth)
    }

    /** The lexer's state together with the peephole. */
    function Machine(): Lexer
      reads this, chars, state, relex
    {
      Lexer(State(), relex.peephole)
    }

    ghost predicate Valid()
      reads this, chars, state, relex
    {
      chars.text == text && chars.Valid() && relex.Valid() && Good(text, State()) &&
      Lawful(text, step) && Follows(text, step)
    }

    /** Between two tokens: the peephole holds at most one token. */
    ghost predicate Ready()
      reads this, chars, state, relex
    {
      Valid() && Inv(text, Machine())
    }

    constructor(contents: string)
      ensures Ready() && text == contents && Machine() == Start()
      ensures fresh(chars) && fresh(state) && fresh(relex) && step == LexNextOf(contents)
    {
      text := contents;
      step := LexNextOf(contents);
      chars := new Chars(contents);
      state := new InterpolState();
      relex := new Relex();
      captured := [];
    }

    /** `toks`: every token up to and including the first `EOF`. */
    method Toks() returns (toks: seq<Tok>)
      requires Ready()
      modifies this, chars, state, relex
      ensures Ready() && toks == TokensFrom(text, step, old(Machine()))
    {
      toks := AccumToks([]);
      assert [] + TokensFrom(text, step, old(Machine())) == TokensFrom(text, step, old(Machine()));
    }

    method AccumToks(accum: seq<Tok>) returns (toks: seq<Tok>)
      requires Ready()
      modifies this, chars, state, relex
      ensures Ready() && toks == accum + TokensFrom(text, step, old(Machine()))
      decreases |text| - chars.at, Pending(Machine())
    {
      ghost var before := Machine();
      var next := Next();
      if next.kind == EOF {
        assert TokensFrom(text, step, before) == [next] by {
          TokensFromStep(text, step, before);
        }
        return accum + [next];
      }
      assert chars.at > before.st.at || (chars.at == before.st.at && Pending(Machine()) < Pending(before)) by {
        NextProgresses(text, step, before);
      }
      ghost var after := Machine();
      toks := AccumToks(accum + [next]);
      ghost var rest := TokensFrom(text, step, after);
      assert TokensFrom(text, step, before) == [next] + rest by {
        TokensFromStep(text, step, before);
      }
      Associative(accum, [next], rest);
    }

    /** `next`: `Relex.consume` with `lexNext` as its callback. */
    method Next() returns (tok: Tok)
      requires Ready()
      modifies this, chars, state, relex
      ensures Ready() && (tok, Machine()) == TokenStream.Next(text, step, old(Machine()))
    {
      PushUntil();
      tok := relex.Flush();
    }

    /** `pushUntil(canFlush, lexNext)`. */
    method PushUntil()
      requires Valid() && |relex.peephole| <= 2
      modifies this, chars, state, relex
      ensures Valid() && (State(), relex.peephole) == TokenStream.PushUntil(text, step, old(State()), old(relex.peephole))
      decreases 2 - |relex.peephole|
    {
      if relex.CanFlush() {
        return;
      }
      var tok := LexNext();
      relex.Push(tok);
      PushUntil();
    }

    /** One token, before the peephole pass. */
    method LexNext() returns (tok: Tok)
      requires Valid()
      modifies this, chars, state
      ensures Valid() && Lexed(tok, State()) == LexSpec.LexNext(text, old(State()))
    {
      SkipWs();
      if IsAtEnd() {
        Sync();
        return NewTok(EOF);
      }
      var was := state.WasInInterpol();
      if was {
        tok := String(false);
        return;
      }
      if IsOnDigit() || IsOnFloat() {
        tok := Number();
        return;
      }
      if IsOnAlpha() {
        tok := Id();
        return;
      }
      match chars.Peek().value
      case '"' => tok := String(true);
      case '}' => tok := EndInterpol();
      case '\n' => tok := Newline();
      case _ => tok := SimpleTok(Tables.MaxTokLen);
    }

    method String(captureFirst: bool) returns (tok: Tok)
      requires Valid() && !state.after
      modifies this, chars, state
      ensures Valid() && Lexed(tok, State()) == LexSpec.String(text, old(State()), captureFirst)
    {
      if !captureFirst {
        Sync();
      } else {
        var _ := Advance();
      }
      ghost var rest := StringRest(text, State());
      while !Check('"')
        invariant Valid() && !state.after && StringRest(text, State()) == rest
        decreases |text| - chars.at
      {
        if MatchSeq("#{") {
          tok := Interpol();
          return;
        }
        var _ := Advance();
      }
      if IsAtEnd() {
        return Tok(ERR, "unterminated string");
      }
      var _ := Advance();
      tok := NewTok(STR);
    }

    method Interpol() returns (tok: Tok)
      requires Valid() && !state.after && LexSpec.MatchSeq(text, State(), "#{")
      modifies this, chars, state
      ensures Valid() && Lexed(tok, State()) == LexSpec.Interpol(text, old(State()))
    {
      var deepened := state.DeepenInterpol();
      if !deepened {
        return Tok(ERR, "maximum string interpolation depth exceeded");
      }
      tok := NewTok(INTERPOL);
      Sync();
      var _ := Advance();
      var _ := Advance();
      var closed := Match('}');
      if closed {
        state.EndInterpol();
        tok := Tok(ERR, "empty string interpolation");
      }
    }

    method EndInterpol() returns (tok: Tok)
      requires Valid() && !IsAtEnd()
      modifies this, chars, state
      ensures Valid() && Lexed(tok, State()) == LexSpec.EndInterpol(text, old(State()))
    {
      var _ := Advance();
      if !state.IsInInterpol() {
        return Tok(ERR, "'}' outside string interpolation");
      }
      state.EndInterpol();
      tok := NewTok(INTERPOL_SEP);
    }

    method Number() returns (tok: Tok)
      requires Valid()
      modifies this, chars
      ensures Valid() && Lexed(tok, State()) == LexSpec.Number(text, old(State()))
    {
      ghost var st := State();
      TakeWhile(IsDigit);
      ghost var s1 := State();
      var isFloat := IsOnFloat();
      if isFloat {
        var _ := Advance();
        TakeWhile(IsDigit);
      }
      ghost var s2 := State();
      assert s2 == if isFloat then LexSpec.TakeWhile(text, LexSpec.Advance(text, s1), IsDigit) else s1;
      if IsOnFloat() {
        Sync();
        var _ := Advance();
        TakeWhile(IsDigit);
        return Tok(ERR, "invalid floating point number");
      }
      tok := NewTok(if isFloat then FLOAT else INT);
    }

    method Id() returns (tok: Tok)
      requires Valid()
      modifies this, chars
      ensures Valid() && Lexed(tok, State()) == LexSpec.Id(text, old(State()))
    {
      TakeWhile(IsAlpha);
      var kind := Tables.FindKeyword(captured).GetOr(ID);
      tok := NewTok(kind);
    }

    method SimpleTok(len: nat) returns (tok: Tok)
      requires Valid() && !IsAtEnd()
      modifies this, chars
      ensures Valid() && Lexed(tok, State()) == LexSpec.SimpleTok(text, old(State()), len)
      decreases len
    {
      if len == 0 {
        tok := Tok(ERR, "invalid character");
        var _ := Advance();
        return;
      }
      var peephole := chars.PeekN(len);
      assert peephole == LexSpec.PeekN(text, State(), len);
      if peephole.None? {
        tok := SimpleTok(len - 1);
        return;
      }
      var kind := Tables.FindTok(peephole.value);
      if kind.None? {
        tok := SimpleTok(len - 1);
        return;
      }
      Capture(len);
      tok := NewTok(kind.value);
    }

    method Newline() returns (tok: Tok)
      requires Valid() && !IsAtEnd()
      modifies this, chars
      ensures Valid() && Lexed(tok, State()) == LexSpec.Newline(text, old(State()))
    {
      var _ := Advance();
      tok := NewTok(NEWLINE);
    }

    method Advance() returns (c: Option<char>)
      requires Valid()
      modifies this, chars
      ensures Valid() && State() == LexSpec.Advance(text, old(State())) && c == Peek(text, old(State()))
    {
      c := chars.Next();
      if c.Some? {
        captured := captured + [c.value];
      }
    }

    method Sync()
      modifies this
      ensures captured == [] && unchanged(chars, state)
    {
      captured := [];
    }

    method SkipWs()
      requires Valid()
      modifies this, chars
      ensures Valid() && State() == LexSpec.SkipWs(text, old(State()))
    {
      if state.IsAfterInterpol() {
        return;
      }
      TakeWhile(IsInsignificant);
      if MatchSeq("--") {
        SkipComment();
      }
      Sync();
    }

    method SkipComment()
      requires Valid()
      modifies this, chars
      ensures Valid() && State() == LexSpec.SkipComment(text, old(State()))
    {
      TakeWhile(NotNewline);
      var _ := Advance();
    }

    method TakeWhile(p: char -> bool)
      requires Valid()
      modifies this, chars
      ensures Valid() && State() == LexSpec.TakeWhile(text, old(State()), p)
      decreases |text| - chars.at
    {
      if IsAtEnd() || !p(chars.Peek().value) {
        return;
      }
      var _ := Advance();
      TakeWhile(p);
    }

    /** `capture(n)`: advances `n` times. */
    method Capture(n: nat)
      requires Valid() && chars.at + n <= |text|
      modifies this, chars
      ensures Valid() && State() == LexSpec.Capture(text, old(State()), n)
      decreases n
    {
      if n > 0 {
        var _ := Advance();
        Capture(n - 1);
      }
    }

    /** Advances past `c` when `check(c)` holds. */
    method Match(c: char) returns (matched: bool)
      requires Valid()
      modifies this, chars
      ensures matched == LexSpec.Check(text, old(State()), c)
      ensures Valid() && State() == if matched then LexSpec.Advance(text, old(State())) else old(State())
    {
      if Check(c) {
        var _ := Advance();
        return true;
      }
      return false;
    }

    function NewTok(kind: TokKind): (tok: Tok)
      reads this
      ensures tok.kind == kind && tok.lexeme == captured
    {
      Tok(kind, captured)
    }

    function IsAtEnd(): (b: bool)
      reads this, chars, state, relex
      requires Valid()
      ensures b == AtEnd(text, State())
    {
      chars.Peek().None?
    }

    function Check(c: char): (b: bool)
      reads this, chars, state, relex
      requires Valid()
      ensures b == LexSpec.Check(text, State(), c)
    {
      chars.Peek() == Some(c) || IsAtEnd()
    }

    function MatchSeq(s: string): (b: bool)
      reads this, chars, state, relex
      requires Valid()
      ensures b == LexSpec.MatchSeq(text, State(), s)
    {
      chars.PeekN(|s|) == Some(s)
    }

    function IsOnDigit(): (b: bool)
      reads this, chars, state, relex
      requires Valid()
      ensures b == LexSpec.IsOnDigit(text, State())
    {
      chars.Peek().Some? && IsDigit(chars.Peek().value)
    }

    function IsOnFloat(): (b: bool)
      reads this, chars, state, relex
      requires Valid()
      ensures b == LexSpec.IsOnFloat(text, State())
    {
      Check('.') && chars.PeekN(2).Some? && IsDigit(chars.PeekN(2).value[1])
    }

    function IsOnAlpha(): (b: bool)
      reads this, chars, state, relex
      requires Valid()
      ensures b == LexSpec.IsOnAlpha(text, State())
    {
      (chars.Peek().Some? && IsLetter(chars.Peek().value)) || Check('_')
    }
  }

  lemma Associative<T>(a: seq<T>, b: seq<T>, c: seq<T>)
    ensures (a + b) + c == a + (b + c)
  {
  }

  /** `step` is `lexNext` on every state the lexer can reach. */
  ghost predicate Follows(text: string, step: LexState -> Lexed)
  {
    forall st {:trigger step(st)} :: Good(text, st) ==> step(st) == LexSpec.LexNext(text, st)
  }

  /** `Lex(text).toks()`. */
  method LexText(text: string) returns (toks: seq<Tok>)
    ensures toks == Tokens(text)
  {
    var lex := new Lex(text);
    toks := lex.Toks();
  }
}
