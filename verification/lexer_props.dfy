/** What one call of `Lexer.Scan` produces, stated in terms of the input bytes:
    which token kind, which position, how much input is consumed. The lemmas
    here look through the lexer's internal steps and speak only of the text. */
module LexerProps {
  import opened Outcomes
  import opened Const
  import opened Lexer

  /** Where the next token starts: the first byte from the reader's position on
      that is neither a space nor a line break. */
  function TokenPos(ctx: Ctx): nat {
    BlanksEnd(ctx.input, ctx.pos)
  }

  /** Some byte other than a space or a line break is still unread. */
  predicate HasToken(ctx: Ctx) {
    TokenPos(ctx) < |ctx.input|
  }

  /** The first non-blank byte. */
  function Head(ctx: Ctx): char
    requires HasToken(ctx)
  {
    ctx.input[TokenPos(ctx)]
  }

  /** The end of the word that starts at the first non-blank byte. */
  function FirstWordEnd(ctx: Ctx): (e: nat)
    requires HasToken(ctx)
    ensures TokenPos(ctx) < e <= |ctx.input|
  {
    WordEnd(ctx.input, TokenPos(ctx))
  }

  /** The word that starts at the first non-blank byte, as written. */
  function FirstWord(ctx: Ctx): string
    requires HasToken(ctx)
  {
    ctx.input[TokenPos(ctx)..FirstWordEnd(ctx)]
  }

  /** The context `Scan` hands to its token-building step: blanks skipped and the
      token start recorded. */
  function TokenStart(ctx: Ctx): (c: Ctx)
    requires HasToken(ctx)
    ensures c.input == ctx.input && c.pos == TokenPos(ctx)
    ensures c.cur == ctx.cur + (TokenPos(ctx) - ctx.pos) && c.start == c.cur && c.prevCur == c.cur
    ensures c.line == ctx.line + LineBreaks(ctx.input, ctx.pos, TokenPos(ctx))
  {
    var c := SkipSeparators(ctx);
    c.(prevCur := c.cur, start := c.cur)
  }

  // ---------------------------------------------------------------------------
  // End of input

  /** `Scan` answers io.EOF, with the EOF token, exactly when every unread byte
      is a space or a line break; otherwise it answers a token and no error. */
  lemma ScanEndOfFile(ctx: Ctx)
    ensures Scan(ctx).err.Some? <==> forall k :: ctx.pos <= k < |ctx.input| ==> IsBlank(ctx.input[k])
    ensures Scan(ctx).err.Some? ==> Scan(ctx).err == Some(EndOfFile) && Scan(ctx).token == EofToken
    ensures Scan(ctx).err.None? ==> Scan(ctx).token.kind != EOF
  {
    var b := TokenPos(ctx);
    if b < |ctx.input| {
      assert !IsBlank(ctx.input[b]);
    }
  }

  // ---------------------------------------------------------------------------
  // Punctuation

  /** Upper-case letters lower-case to letters, so a byte reaches the
      punctuation switch exactly when it is itself one of the eight. */
  lemma LowerPunctuation(c: char)
    ensures Punctuation(ToLower(c)).Some? <==> Punctuation(c).Some?
    ensures Punctuation(c).Some? ==> ToLower(c) == c
  {
  }

  /** A punctuation byte becomes its one-byte token: column 1, the offset of the
      byte, the line count of the skipped blanks, and exactly that byte consumed. */
  lemma ScanPunctuation(ctx: Ctx)
    requires HasToken(ctx) && Punctuation(Head(ctx)).Some?
    ensures var b := TokenPos(ctx); var s := Scan(ctx);
      && s.err == None
      && s.token.kind == Punctuation(Head(ctx)).value
      && s.token.value == "" && s.token.intValue == 0
      && s.token.pos.line == ctx.line + LineBreaks(ctx.input, ctx.pos, b)
      && s.token.pos.offset == ctx.cur + (b - ctx.pos)
      && s.token.pos.column == 1
      && s.state.pos == b + 1
      && s.state.line == s.token.pos.line
  {
    LowerPunctuation(Head(ctx));
  }

  // ---------------------------------------------------------------------------
  // Words

  /** Lower-casing the first byte before the rest of the word changes nothing,
      because lower-casing is idempotent. */
  lemma StatementWordIsLoweredWord(c: Ctx)
    requires c.pos < |c.input|
    ensures StatementWord(c, ToLower(c.input[c.pos])) == LowerString(c.input[c.pos..WordEnd(c.input, c.pos)])
  {
    var e := WordEnd(c.input, c.pos);
    var a := [ToLower(c.input[c.pos])] + c.input[c.pos + 1..e];
    var b := c.input[c.pos..e];
    assert |LowerString(a)| == |LowerString(b)|;
    forall i | 0 <= i < |a|
      ensures LowerString(a)[i] == LowerString(b)[i]
    {
      if i == 0 {
        assert ToLower(ToLower(c.input[c.pos])) == ToLower(c.input[c.pos]);
      } else {
        assert a[i] == b[i];
      }
    }
  }

  /** The lexeme `scanStatement` builds for the first word. */
  function WordLexeme(ctx: Ctx): Lexeme
    requires HasToken(ctx)
  {
    var c0 := TokenStart(ctx);
    ScanStatement(c0, ToLower(Head(ctx)))
  }

  /** `Scan` on a word builds its token from the lexeme of that word. */
  lemma ScanOfWord(ctx: Ctx)
    requires HasToken(ctx) && Punctuation(Head(ctx)).None?
    ensures var lx := WordLexeme(ctx); var b := TokenPos(ctx);
      && Scan(ctx) == Step(TokenOf(lx.ctx, lx.kind, lx.value), None, lx.ctx)
      && lx.ctx.start == ctx.cur + (b - ctx.pos) && lx.ctx.prevCur == ctx.cur + (b - ctx.pos)
  {
    LowerPunctuation(Head(ctx));
  }

  /** `scanStatement` reads the first word as the lower-cased word. */
  lemma WordIsLowered(ctx: Ctx)
    requires HasToken(ctx)
    ensures StatementWord(TokenStart(ctx), ToLower(Head(ctx))) == LowerString(FirstWord(ctx))
  {
    StatementWordIsLoweredWord(TokenStart(ctx));
  }

  /** The line count after a word: the blanks before it and the word's own
      line breaks, which all come after its first byte. */
  lemma LinesOfWord(ctx: Ctx, c: Ctx)
    requires HasToken(ctx) && AfterWord(TokenStart(ctx), c)
    ensures c.line == ctx.line + LineBreaks(ctx.input, ctx.pos, FirstWordEnd(ctx))
  {
    LineBreaksSplit(ctx.input, ctx.pos, TokenPos(ctx), FirstWordEnd(ctx));
  }

  /** A keyword: its table entry, no payload, the column is the word's length,
      the word's own line breaks are counted, and exactly the word is consumed. */
  lemma ScanKeyword(ctx: Ctx)
    requires HasToken(ctx) && Punctuation(Head(ctx)).None?
    requires Keyword(LowerString(FirstWord(ctx))).Some?
    ensures var b := TokenPos(ctx); var e := FirstWordEnd(ctx); var s := Scan(ctx);
      && s.err == None
      && s.token.kind == Keyword(LowerString(FirstWord(ctx))).value
      && s.token.value == "" && s.token.intValue == 0
      && s.token.pos.line == ctx.line + LineBreaks(ctx.input, ctx.pos, e)
      && s.token.pos.offset == ctx.cur + (b - ctx.pos)
      && s.token.pos.column == e - b
      && s.state.pos == e
  {
    var lx := WordLexeme(ctx);
    ScanOfWord(ctx);
    assert lx.kind == Keyword(LowerString(FirstWord(ctx))).value && lx.value == NoValue
        && AfterWord(TokenStart(ctx), lx.ctx) by {
      WordIsLowered(ctx);
      ScanStatementKeyword(TokenStart(ctx), ToLower(Head(ctx)));
    }
    LinesOfWord(ctx, lx.ctx);
  }

  /** A word that is neither a keyword nor a lookahead word: INT carrying the
      value `strconv.Atoi` gives when it is a numeral, else IDENT carrying the
      lower-cased word. */
  lemma ScanPlainWord(ctx: Ctx)
    requires HasToken(ctx) && Punctuation(Head(ctx)).None?
    requires var state := LowerString(FirstWord(ctx)); Keyword(state).None? && !IsLookaheadWord(state)
    ensures var b := TokenPos(ctx); var e := FirstWordEnd(ctx);
      var state := LowerString(FirstWord(ctx)); var s := Scan(ctx);
      && s.err == None
      && (IsNumeral(state) ==> s.token.kind == INT && s.token.intValue == Atoi(state).value
                               && s.token.value == "")
      && (!IsNumeral(state) ==> s.token.kind == IDENT && s.token.value == state
                                && s.token.intValue == 0)
      && s.token.pos.line == ctx.line + LineBreaks(ctx.input, ctx.pos, e)
      && s.token.pos.offset == ctx.cur + (b - ctx.pos)
      && s.token.pos.column == e - b
      && s.state.pos == e
  {
    var lx := WordLexeme(ctx);
    var state := LowerString(FirstWord(ctx));
    ScanOfWord(ctx);
    assert && (IsNumeral(state) ==> lx.kind == INT && lx.value == IntValue(Atoi(state).value))
           && (!IsNumeral(state) ==> lx.kind == IDENT && lx.value == StrValue(state))
           && AfterWord(TokenStart(ctx), lx.ctx) by {
      WordIsLowered(ctx);
      ScanStatementPlainWord(TokenStart(ctx), ToLower(Head(ctx)));
    }
    LinesOfWord(ctx, lx.ctx);
  }

  /** The lexeme of `order` or `group`: the `by` lookahead run just past the
      word, in terms of the input. */
  lemma OrderGroupLexeme(ctx: Ctx)
    requires HasToken(ctx)
    requires LowerString(FirstWord(ctx)) == "order" || LowerString(FirstWord(ctx)) == "group"
    ensures var b := TokenPos(ctx); var e := FirstWordEnd(ctx); var sp := SpacesEnd(ctx.input, e);
      var isBy := SpacedBy(ctx.input, e); var lx := WordLexeme(ctx);
      && lx.value == NoValue
      && lx.ctx.cur == ctx.cur + (sp - ctx.pos) + 2
      && lx.ctx.line == ctx.line + LineBreaks(ctx.input, ctx.pos, e) + StopLine(ctx.input, e)
      && lx.ctx.pos == (if sp + 2 <= |ctx.input| then sp + 2 else |ctx.input|)
      && (isBy && LowerString(FirstWord(ctx)) == "order" ==> lx.kind == ORDERBY)
      && (isBy && LowerString(FirstWord(ctx)) == "group" ==> lx.kind == GROUPBY)
      && (!isBy ==> lx.kind == ILLEGAL)
  {
    var c := ReadWord(Discard(TokenStart(ctx))).1;
    var kind := if LowerString(FirstWord(ctx)) == "order" then ORDERBY else GROUPBY;
    assert AfterWord(TokenStart(ctx), c)
        && WordLexeme(ctx) == Lexeme(LookaheadBy(c, kind).0, NoValue, LookaheadBy(c, kind).1) by {
      WordIsLowered(ctx);
      ScanStatementLookahead(TokenStart(ctx), ToLower(Head(ctx)));
    }
    LinesOfWord(ctx, c);
  }

  /** `order` or `group`, in any case: the spaces after the word and two more
      bytes are consumed whatever they are; the token is ORDERBY or GROUPBY
      when those bytes are exactly `by`, else ILLEGAL. A line break straight
      after the spaces is counted, one inside the two bytes is not. */
  lemma ScanOrderGroup(ctx: Ctx)
    requires HasToken(ctx) && Punctuation(Head(ctx)).None?
    requires LowerString(FirstWord(ctx)) == "order" || LowerString(FirstWord(ctx)) == "group"
    ensures var b := TokenPos(ctx); var e := FirstWordEnd(ctx); var sp := SpacesEnd(ctx.input, e);
      var isBy := SpacedBy(ctx.input, e); var s := Scan(ctx);
      && s.err == None
      && s.token.pos.offset == ctx.cur + (b - ctx.pos)
      && s.token.pos.column == sp - b + 2
      && s.token.pos.line == ctx.line + LineBreaks(ctx.input, ctx.pos, e) + StopLine(ctx.input, e)
      && s.token.value == "" && s.token.intValue == 0
      && s.state.pos == (if sp + 2 <= |ctx.input| then sp + 2 else |ctx.input|)
      && (isBy && LowerString(FirstWord(ctx)) == "order" ==> s.token.kind == ORDERBY)
      && (isBy && LowerString(FirstWord(ctx)) == "group" ==> s.token.kind == GROUPBY)
      && (!isBy ==> s.token.kind == ILLEGAL)
  {
    ScanOfWord(ctx);
    OrderGroupLexeme(ctx);
  }

  /** The lexeme of `primary`: the `key` lookahead run just past the word, in
      terms of the input. */
  lemma PrimaryLexeme(ctx: Ctx)
    requires HasToken(ctx)
    requires LowerString(FirstWord(ctx)) == "primary"
    ensures var e := FirstWordEnd(ctx); var sp := SpacesEnd(ctx.input, e);
      var n := |ctx.input|; var lx := WordLexeme(ctx);
      && lx.value == NoValue
      && lx.ctx.line == ctx.line + LineBreaks(ctx.input, ctx.pos, e) + StopLine(ctx.input, e)
      && (sp + 3 > n ==>
            lx.kind == ILLEGAL && lx.ctx.pos == n && lx.ctx.cur == ctx.cur + (sp - ctx.pos) + 3)
      && (SpacedKey(ctx.input, e) ==>
            lx.kind == PRIMARYKEY && lx.ctx.pos == sp + 3 && lx.ctx.cur == ctx.cur + (sp - ctx.pos) + 3)
      && (sp + 3 <= n && !SpacedKey(ctx.input, e) ==>
            lx.kind == ILLEGAL && lx.ctx.pos == sp && lx.ctx.cur == ctx.cur + (sp - ctx.pos))
  {
    var c := ReadWord(Discard(TokenStart(ctx))).1;
    assert AfterWord(TokenStart(ctx), c)
        && WordLexeme(ctx) == Lexeme(LookaheadKey(c).0, NoValue, LookaheadKey(c).1) by {
      WordIsLowered(ctx);
      ScanStatementLookahead(TokenStart(ctx), ToLower(Head(ctx)));
    }
    LinesOfWord(ctx, c);
  }

  /** `primary`, in any case: PRIMARYKEY when the bytes after the spaces are
      exactly `key`; ILLEGAL otherwise, consuming everything when fewer than
      three bytes remain and nothing after the spaces when three other bytes do. */
  lemma ScanPrimary(ctx: Ctx)
    requires HasToken(ctx) && Punctuation(Head(ctx)).None?
    requires LowerString(FirstWord(ctx)) == "primary"
    ensures var b := TokenPos(ctx); var e := FirstWordEnd(ctx); var sp := SpacesEnd(ctx.input, e);
      var n := |ctx.input|; var s := Scan(ctx);
      && s.err == None
      && s.token.pos.offset == ctx.cur + (b - ctx.pos)
      && s.token.pos.line == ctx.line + LineBreaks(ctx.input, ctx.pos, e) + StopLine(ctx.input, e)
      && s.token.value == "" && s.token.intValue == 0
      && (sp + 3 > n ==>
            s.token.kind == ILLEGAL && s.state.pos == n && s.token.pos.column == sp - b + 3)
      && (SpacedKey(ctx.input, e) ==>
            s.token.kind == PRIMARYKEY && s.state.pos == sp + 3 && s.token.pos.column == sp - b + 3)
      && (sp + 3 <= n && !SpacedKey(ctx.input, e) ==>
            s.token.kind == ILLEGAL && s.state.pos == sp && s.token.pos.column == sp - b)
  {
    ScanOfWord(ctx);
    PrimaryLexeme(ctx);
  }
}
