/**
 * The token stream of `Lex.toks`: each `next` fills the peephole to two
 * tokens with `lexNext` and flushes it, and the stream ends at the first
 * `EOF`.
 */
module TokenStream {
  import opened TokKinds
  import opened LexSpec
  import opened Relexing

  /** The lexer's state together with the tokens waiting in the peephole. */
  datatype Lexer = Lexer(st: LexState, peep: seq<Tok>)

  /**
   * Between two calls of `next` the peephole holds at most one token, and a
   * waiting `EOF` means the whole text has been read.
   */
  predicate Inv(text: string, lx: Lexer)
  {
    Good(text, lx.st) && |lx.peep| <= 1 &&
    (|lx.peep| == 1 && lx.peep[0].kind == EOF ==> lx.st.at == |text|)
  }

  function Start(): (lx: Lexer)
    ensures forall text :: Inv(text, lx)
  {
    Lexer(LexState(0, [], false, 0), [])
  }

  /**
   * What `Relex.consume` relies on from the token callback it is given: a
   * token other than `EOF` moves the cursor, and `EOF` comes only at the end.
   */
  ghost predicate Lawful(text: string, lex: LexState -> Lexed)
  {
    forall st {:trigger lex(st)} :: Good(text, st) ==> Good(text, lex(st).st) && lex(st).st.at >= st.at && Moved(text, st, lex(st).st, lex(st).tok)
  }

  /** A token other than `EOF` moved the cursor; an `EOF` leaves it at the end. */
  predicate Moved(text: string, before: LexState, after: LexState, tok: Tok)
  {
    (tok.kind != EOF ==> after.at > before.at) && (tok.kind == EOF ==> after.at == |text|)
  }

  /** `lexNext` as the callback handed to `Relex.consume`. */
  function LexNextOf(text: string): (lex: LexState -> Lexed)
    ensures Lawful(text, lex)
  {
    st => if Good(text, st) then LexNext(text, st) else Lexed(Tok(EOF, []), st)
  }

  /**
   * `pushUntil(canFlush, lex)`: lexes tokens into the peephole until it
   * holds two. Each pushed token moved the cursor unless it is `EOF`.
   */
  function PushUntil(text: string, lex: LexState -> Lexed, st: LexState, peep: seq<Tok>): (r: (LexState, seq<Tok>))
    requires Lawful(text, lex) && Good(text, st) && |peep| <= 2
    ensures Good(text, r.0) && r.0.at >= st.at && |r.1| == 2
    ensures forall i :: 0 <= i < |peep| ==> r.1[i] == peep[i]
    ensures |peep| == 0 ==> Moved(text, st, r.0, r.1[0])
    ensures |peep| <= 1 ==> Moved(text, st, r.0, r.1[1])
    decreases 2 - |peep|
  {
    if |peep| == 2 then (st, peep)
    else
      var l := lex(st);
      PushUntil(text, lex, l.st, peep + [l.tok])
  }

  /** `Relex.consume`: the next token after the peephole pass, and the lexer after it. */
  function Next(text: string, lex: LexState -> Lexed, lx: Lexer): (r: (Tok, Lexer))
    requires Lawful(text, lex) && Inv(text, lx)
    ensures Inv(text, r.1) && r.1.st.at >= lx.st.at
    ensures |lx.peep| == 1 && lx.peep[0].kind == EOF ==> r.0.kind == EOF
  {
    var (st, full) := PushUntil(text, lex, lx.st, lx.peep);
    var (tok, rest) := FlushSpec(full[0], full[1]);
    (tok, Lexer(st, rest))
  }

  /** From an empty peephole, `consume` lexes two tokens and flushes them. */
  lemma NextFromEmpty(text: string, lex: LexState -> Lexed, st: LexState)
    requires Lawful(text, lex) && Good(text, st)
    ensures var l1 := lex(st); var l2 := lex(l1.st); var (tok, rest) := FlushSpec(l1.tok, l2.tok);
      Next(text, lex, Lexer(st, [])) == (tok, Lexer(l2.st, rest))
  {
    var l1 := lex(st);
    assert [] + [l1.tok] == [l1.tok];
    NextFromWaiting(text, lex, l1.st, l1.tok);
  }

  /** With one token waiting, `consume` lexes one more and flushes the pair. */
  lemma NextFromWaiting(text: string, lex: LexState -> Lexed, st: LexState, waiting: Tok)
    requires Lawful(text, lex) && Good(text, st)
    ensures PushUntil(text, lex, st, [waiting]) == (lex(st).st, [waiting, lex(st).tok])
    ensures Inv(text, Lexer(st, [waiting])) ==>
      var l := lex(st); var (tok, rest) := FlushSpec(waiting, l.tok);
      Next(text, lex, Lexer(st, [waiting])) == (tok, Lexer(l.st, rest))
  {
    var l := lex(st);
    assert [waiting] + [l.tok] == [waiting, l.tok];
    assert PushUntil(text, lex, l.st, [waiting, l.tok]) == (l.st, [waiting, l.tok]);
  }

  /** 0 once only an `EOF` waits in the peephole, 1 otherwise. */
  function Pending(lx: Lexer): nat
  {
    if |lx.peep| == 1 && lx.peep[0].kind == EOF then 0 else 1
  }

  /** Every token but an `EOF` brings the lexer closer to the end of the stream. */
  lemma NextProgresses(text: string, lex: LexState -> Lexed, lx: Lexer)
    requires Lawful(text, lex) && Inv(text, lx) && Next(text, lex, lx).0.kind != EOF
    ensures var lx' := Next(text, lex, lx).1;
      lx'.st.at > lx.st.at || (lx'.st.at == lx.st.at && Pending(lx') < Pending(lx))
  {
    var (st, full) := PushUntil(text, lex, lx.st, lx.peep);
    if |lx.peep| == 1 {
      assert full[0] == lx.peep[0];
      assert Moved(text, lx.st, st, full[1]);
    } else {
      assert Moved(text, lx.st, st, full[0]);
    }
  }

  /** `accumToks`: the tokens up to and including the first `EOF`. */
  function TokensFrom(text: string, lex: LexState -> Lexed, lx: Lexer): seq<Tok>
    requires Lawful(text, lex) && Inv(text, lx)
    decreases |text| - lx.st.at, Pending(lx)
  {
    var next := Next(text, lex, lx);
    if next.0.kind == EOF then [next.0]
    else
      NextProgresses(text, lex, lx);
      [next.0] + TokensFrom(text, lex, next.1)
  }

  /** One step of `accumToks`. */
  lemma TokensFromStep(text: string, lex: LexState -> Lexed, lx: Lexer)
    requires Lawful(text, lex) && Inv(text, lx)
    ensures var next := Next(text, lex, lx);
      TokensFrom(text, lex, lx) == if next.0.kind == EOF then [next.0] else [next.0] + TokensFrom(text, lex, next.1)
  {
  }

  /** The stream ends with its only `EOF`. */
  lemma {:induction false} TokensFromEndAtEof(text: string, lex: LexState -> Lexed, lx: Lexer)
    requires Lawful(text, lex) && Inv(text, lx)
    ensures EndsAtEof(TokensFrom(text, lex, lx))
    decreases |text| - lx.st.at, Pending(lx)
  {
    var next := Next(text, lex, lx);
    if next.0.kind != EOF {
      NextProgresses(text, lex, lx);
      TokensFromEndAtEof(text, lex, next.1);
      ConsEndsAtEof(next.0, TokensFrom(text, lex, next.1));
    }
  }

  lemma ConsEndsAtEof(tok: Tok, rest: seq<Tok>)
    requires tok.kind != EOF && EndsAtEof(rest)
    ensures EndsAtEof([tok] + rest)
  {
    var r := [tok] + rest;
    assert forall i :: 1 <= i < |r| ==> r[i] == rest[i - 1];
  }

  /** The last token is `EOF` and no earlier one is. */
  predicate EndsAtEof(toks: seq<Tok>)
  {
    |toks| >= 1 && toks[|toks| - 1].kind == EOF && forall i :: 0 <= i < |toks| - 1 ==> toks[i].kind != EOF
  }

  /** `Lex(text).toks()`: the stream ends with its only `EOF`. */
  function Tokens(text: string): (r: seq<Tok>)
    ensures EndsAtEof(r)
  {
    TokensFromEndAtEof(text, LexNextOf(text), Start());
    TokensFrom(text, LexNextOf(text), Start())
  }

  function Kinds(toks: seq<Tok>): (r: seq<TokKind>)
    ensures |r| == |toks| && forall i :: 0 <= i < |r| ==> r[i] == toks[i].kind
  {
    seq(|toks|, i requires 0 <= i < |toks| => toks[i].kind)
  }

  /** An empty text lexes to a lone `EOF` with an empty lexeme. */
  lemma EmptyText()
    ensures Tokens("") == [Tok(EOF, "")]
  {
  }
}
