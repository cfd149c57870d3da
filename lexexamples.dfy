/** The lexer on whole texts: reusable steps and worked examples. */
module LexExamples {
  import opened TokKinds
  import opened LexSpec
  import opened TokenStream
  import opened Relexing
  import Toks
  import opened Wrappers

  /** Blanks before anything other than a blank or `-` are skipped, and nothing else is. */
  lemma SkipBlanks(text: string, st: LexState, start: nat)
    requires Good(text, st) && !st.after && st.at <= start <= |text|
    requires forall k :: st.at <= k < start ==> IsInsignificant(text[k])
    requires start < |text| ==> !IsInsignificant(text[start]) && text[start] != '-'
    ensures SkipWs(text, st) == LexState(start, "", false, st.depth)
  {
    var w := TakeWhile(text, st, IsInsignificant);
    assert w.at == start;
    assert !MatchSeq(text, w, "--") by {
      if start + 2 <= |text| {
        assert text[start..start + 2][0] == text[start];
      }
    }
  }

  /** A run of letters is one keyword or identifier token. */
  lemma Word(text: string, s: LexState, end: nat, kind: TokKind)
    requires Good(text, s) && s.captured == [] && s.at < end <= |text|
    requires forall k :: s.at <= k < end ==> IsLetter(text[k])
    requires end == |text| || !IsAlpha(text[end])
    requires Toks.FindKeyword(text[s.at..end]).GetOr(ID) == kind
    ensures Id(text, s) == Lexed(Tok(kind, text[s.at..end]), s.(at := end, captured := text[s.at..end]))
  {
    var s1 := TakeWhile(text, s, IsAlpha);
    assert s1 == s.(at := end, captured := text[s.at..end]) by {
      assert forall k :: s.at <= k < end ==> IsAlpha(text[k]);
      assert s1.at == end;
    }
  }

  /** Blanks, then a word: the word is one keyword or identifier token. */
  lemma WordAfterBlanks(text: string, st: LexState, start: nat, end: nat, kind: TokKind)
    requires Good(text, st) && !st.after
    requires st.at <= start < end <= |text|
    requires forall k :: st.at <= k < start ==> IsInsignificant(text[k])
    requires forall k :: start <= k < end ==> IsLetter(text[k])
    requires end == |text| || !IsAlpha(text[end])
    requires Toks.FindKeyword(text[start..end]).GetOr(ID) == kind
    ensures LexNext(text, st) == Lexed(Tok(kind, text[start..end]), LexState(end, text[start..end], false, st.depth))
  {
    SkipBlanks(text, st, start);
    var s := LexState(start, "", false, st.depth);
    assert IsOnAlpha(text, s) && !IsOnDigit(text, s) && !IsOnFloat(text, s);
    Word(text, s, end, kind);
  }

  /** Blanks up to the end of the text: `EOF`. */
  lemma BlanksToEnd(text: string, st: LexState)
    requires Good(text, st) && !st.after
    requires forall k :: st.at <= k < |text| ==> IsInsignificant(text[k])
    ensures LexNext(text, st) == Lexed(Tok(EOF, ""), LexState(|text|, "", false, st.depth))
  {
    SkipBlanks(text, st, |text|);
  }

  /** A blank left after whitespace skipping is an invalid character. */
  lemma BlankIsInvalid(text: string, st: LexState)
    requires Good(text, st) && !st.after
    requires SkipWs(text, st).at < |text| && text[SkipWs(text, st).at] == ' '
    ensures LexNext(text, st).tok == Tok(ERR, "invalid character")
  {
    var s := SkipWs(text, st);
    assert !IsOnAlpha(text, s) && !IsOnDigit(text, s) && !IsOnFloat(text, s);
    forall len: nat | 1 <= len <= Toks.MaxTokLen && PeekN(text, s, len).Some?
      ensures Toks.FindTok(PeekN(text, s, len).value) == None
    {
      Toks.NoOperatorStartsBlank(PeekN(text, s, len).value);
    }
  }

  /** A worked example of the peephole: in `a not in b`, `not in` becomes one token. */
  const Text := "a not in b"

  function At(at: nat, captured: string): LexState { LexState(at, captured, false, 0) }

  lemma Step0() ensures LexNextOf(Text)(At(0, "")) == Lexed(Tok(ID, "a"), At(1, "a")) {
    assert Text[0..1] == "a" && Toks.FindKeyword("a") == None;
    WordAfterBlanks(Text, At(0, ""), 0, 1, ID);
  }
  lemma Step1() ensures LexNextOf(Text)(At(1, "a")) == Lexed(Tok(NOT, "not"), At(5, "not")) {
    assert Text[2..5] == "not" && Toks.FindKeyword("not") == Some(NOT);
    WordAfterBlanks(Text, At(1, "a"), 2, 5, NOT);
  }
  lemma Step2() ensures LexNextOf(Text)(At(5, "not")) == Lexed(Tok(IN, "in"), At(8, "in")) {
    assert Text[6..8] == "in" && Toks.FindKeyword("in") == Some(IN);
    WordAfterBlanks(Text, At(5, "not"), 6, 8, IN);
  }
  lemma Step3() ensures LexNextOf(Text)(At(8, "in")) == Lexed(Tok(ID, "b"), At(10, "b")) {
    assert Text[9..10] == "b" && Toks.FindKeyword("b") == None;
    WordAfterBlanks(Text, At(8, "in"), 9, 10, ID);
  }
  lemma Step4() ensures LexNextOf(Text)(At(10, "b")) == Lexed(Tok(EOF, ""), At(10, "")) {
    BlanksToEnd(Text, At(10, "b"));
  }
  lemma Step5() ensures LexNextOf(Text)(At(10, "")) == Lexed(Tok(EOF, ""), At(10, "")) {
    BlanksToEnd(Text, At(10, ""));
  }

  const L0 := Lexer(At(0, ""), [])
  const L1 := Lexer(At(5, "not"), [Tok(NOT, "not")])
  const L2 := Lexer(At(8, "in"), [])

  /** `a` is followed by `not`, which does not merge with it: `a` comes out and `not` waits. */
  lemma RelexFirst()
    ensures Next(Text, LexNextOf(Text), L0) == (Tok(ID, "a"), L1)
  {
    Step0();
    Step1();
    FirstWith(LexNextOf(Text));
  }

  lemma FirstWith(f: LexState -> Lexed)
    requires Lawful(Text, f)
    requires f(At(0, "")) == Lexed(Tok(ID, "a"), At(1, "a")) && f(At(1, "a")) == Lexed(Tok(NOT, "not"), At(5, "not"))
    ensures Next(Text, f, L0) == (Tok(ID, "a"), L1)
  {
    NextFromEmpty(Text, f, At(0, ""));
  }

  /** The waiting `not` and the `in` after it come out as one `NOT_IN` token. */
  lemma RelexNotIn()
    ensures Next(Text, LexNextOf(Text), L1) == (Tok(NOT_IN, "not in"), L2)
  {
    Step2();
    NotInWith(LexNextOf(Text));
  }

  lemma NotInWith(f: LexState -> Lexed)
    requires Lawful(Text, f) && f(At(5, "not")) == Lexed(Tok(IN, "in"), At(8, "in"))
    ensures Next(Text, f, L1) == (Tok(NOT_IN, "not in"), L2)
  {
    NextFromWaiting(Text, f, At(5, "not"), Tok(NOT, "not"));
    assert "not" + " " + "in" == "not in";
  }

  const Commented := "-- c\n x"

  /** Only one comment is skipped, together with its line break. */
  lemma CommentSkipped()
    ensures SkipWs(Commented, At(0, "")) == At(5, "")
  {
    var s0 := At(0, "");
    assert TakeWhile(Commented, s0, IsInsignificant) == s0;
    assert Commented[0..2] == "--";
    var s1 := TakeWhile(Commented, s0, NotNewline);
    assert s1.at == 4 by {
      assert forall k :: 0 <= k < 4 ==> Commented[k] != '\n';
    }
  }

  /**
   * The blanks that indent the line after a comment are not skipped: the
   * first of them is an invalid character.
   */
  lemma IndentAfterComment()
    ensures LexNext(Commented, At(0, "")).tok == Tok(ERR, "invalid character")
  {
    CommentSkipped();
    BlankIsInvalid(Commented, At(0, ""));
  }
}
