/** Facts about the lexer that its unit tests and its error messages rely on. */
module LexFacts {
  import opened TokKinds
  import opened LexSpec
  import opened TokenStream
  import opened Interpolation

  /** No closing quote and no `#{` before the end: the string is unterminated and the rest of the text is consumed. */
  lemma {:induction false} UnterminatedString(text: string, st: LexState)
    requires Good(text, st) && !st.after
    requires forall k :: st.at <= k < |text| ==> text[k] != '"' && text[k] != '#'
    ensures StringRest(text, st) == Err("unterminated string", st.(at := |text|, captured := st.captured + text[st.at..]))
    decreases |text| - st.at
  {
    if st.at < |text| {
      assert !MatchSeq(text, st, "#{") by {
        if st.at + 2 <= |text| {
          assert text[st.at..st.at + 2][0] == text[st.at];
        }
      }
      UnterminatedString(text, Advance(text, st));
      assert st.captured + text[st.at..] == st.captured + [text[st.at]] + text[st.at + 1..];
    }
  }

  /** The body up to the first quote becomes one `STR` token whose lexeme ends with the quote. */
  lemma {:induction false} TerminatedString(text: string, st: LexState, close: nat)
    requires Good(text, st) && !st.after && st.at <= close < |text| && text[close] == '"'
    requires forall k :: st.at <= k < close ==> text[k] != '"' && text[k] != '#'
    ensures StringRest(text, st) == Lexed(Tok(STR, st.captured + text[st.at..close + 1]), st.(at := close + 1, captured := st.captured + text[st.at..close + 1]))
    decreases close - st.at
  {
    if st.at < close {
      assert !MatchSeq(text, st, "#{") by {
        if st.at + 2 <= |text| {
          assert text[st.at..st.at + 2][0] == text[st.at];
        }
      }
      TerminatedString(text, Advance(text, st), close);
      assert st.captured + text[st.at..close + 1] == st.captured + [text[st.at]] + text[st.at + 1..close + 1];
    }
  }

  /** `#{}` is reported as an empty interpolation, and the string resumes after the brace. */
  lemma EmptyInterpolation(text: string, st: LexState)
    requires Good(text, st) && !st.after && st.depth < MaxInterpolDepth
    requires st.at + 3 <= |text| && text[st.at..st.at + 3] == "#{}"
    ensures MatchSeq(text, st, "#{")
    ensures Interpol(text, st) == Err("empty string interpolation", LexState(st.at + 3, "#{}", true, st.depth))
  {
    assert text[st.at..st.at + 2] == "#{";
    assert text[st.at] == '#' && text[st.at + 1] == '{' && text[st.at + 2] == '}' by {
      assert text[st.at..st.at + 3][0] == text[st.at];
      assert text[st.at..st.at + 3][1] == text[st.at + 1];
      assert text[st.at..st.at + 3][2] == text[st.at + 2];
    }
    assert "" + [text[st.at]] + [text[st.at + 1]] + [text[st.at + 2]] == "#{}";
  }

  /** A `#{` that ends the text is also reported as an empty interpolation. */
  lemma InterpolationAtEnd(text: string, st: LexState)
    requires Good(text, st) && !st.after && st.depth < MaxInterpolDepth
    requires st.at + 2 == |text| && text[st.at..] == "#{"
    ensures MatchSeq(text, st, "#{")
    ensures Interpol(text, st).tok == Tok(ERR, "empty string interpolation")
  {
    assert text[st.at..st.at + 2] == "#{";
  }

  /** At the maximum depth an interpolation is refused and nothing is consumed. */
  lemma InterpolationTooDeep(text: string, st: LexState)
    requires Good(text, st) && !st.after && MatchSeq(text, st, "#{") && st.depth == MaxInterpolDepth
    ensures Interpol(text, st) == Err("maximum string interpolation depth exceeded", st)
  {
  }

  /** A `}` outside an interpolation is an error that consumes the brace. */
  lemma BraceOutsideInterpolation(text: string, st: LexState)
    requires Good(text, st) && st.at < |text| && text[st.at] == '}' && st.depth == 0
    ensures EndInterpol(text, st).tok == Tok(ERR, "'}' outside string interpolation")
  {
  }

  /** An empty text, or one of only blanks, is a lone `EOF`. */
  lemma BlankText(text: string)
    requires forall k :: 0 <= k < |text| ==> IsInsignificant(text[k])
    ensures LexNext(text, Start().st) == Lexed(Tok(EOF, ""), LexState(|text|, "", false, 0))
  {
    var s := TakeWhile(text, Start().st, IsInsignificant);
    assert s.at == |text|;
  }
}
