/** The loop that calls `Scan` until it answers io.EOF, as the lexer tests'
    `assertQuery` helper does. The loop is written for any step function; the
    facts about the token stream are proved from a handful of per-step facts,
    which `Lexer.Scan` is then shown to have. */
module Tokenizing {
  import opened Outcomes
  import opened Const
  import opened Lexer
  import opened LexerProps

  type Stepper = Ctx -> Step<Ctx>

  /** Every token the step returns moves the reader forward over the same input. */
  ghost predicate Advances(f: Stepper) {
    forall c: Ctx :: f(c).err.None? ==> f(c).state.input == c.input && c.pos < f(c).state.pos
  }

  /** Every token is a real token with a positive column, on a line between the
      reader's line before and after it. */
  ghost predicate WellPlaced(f: Stepper) {
    forall c: Ctx :: f(c).err.None? ==>
      && f(c).token.kind != EOF && f(c).token.pos.column >= 1
      && c.line <= f(c).token.pos.line <= f(c).state.line
  }

  /** The reader has never overshot: the cursor counts exactly the bytes read. */
  predicate Aligned(ctx: Ctx) {
    ctx.cur == ctx.pos
  }

  /** From an aligned reader, a token's offset indexes its first byte, which is
      not blank and lies in the consumed stretch; the reader stays aligned
      unless the input is used up. At the end of the input no token comes. */
  ghost predicate Indexed(f: Stepper) {
    && (forall c: Ctx :: c.pos == |c.input| ==> f(c).err.Some?)
    && (forall c: Ctx :: Aligned(c) && f(c).err.None? ==>
          var o := f(c).token.pos.offset;
          && c.pos <= o < f(c).state.pos && o < |c.input| && !IsBlank(c.input[o])
          && (f(c).state.pos < |c.input| ==> Aligned(f(c).state)))
  }

  /** The tokens the step returns before its first error. */
  function Collect(f: Stepper, ctx: Ctx): (ts: seq<Token>)
    requires Advances(f)
    decreases |ctx.input| - ctx.pos
    ensures |ts| == 0 <==> f(ctx).err.Some?
  {
    var s := f(ctx);
    if s.err.Some? then [] else [s.token] + Collect(f, s.state)
  }

  lemma {:induction false} CollectAt(f: Stepper, ctx: Ctx, i: nat)
    requires Advances(f) && WellPlaced(f) && i < |Collect(f, ctx)|
    decreases i
    ensures var t := Collect(f, ctx)[i];
      t.kind != EOF && t.pos.column >= 1 && t.pos.line >= ctx.line
  {
    if i > 0 {
      var c := f(ctx).state;
      var i1 := i - 1;
      CollectAt(f, c, i1);
    }
  }

  lemma {:induction false} CollectOffsetAt(f: Stepper, ctx: Ctx, i: nat)
    requires Advances(f) && Indexed(f) && Aligned(ctx) && i < |Collect(f, ctx)|
    decreases i
    ensures var t := Collect(f, ctx)[i];
      ctx.pos <= t.pos.offset < |ctx.input| && !IsBlank(ctx.input[t.pos.offset])
  {
    if i > 0 {
      var c := f(ctx).state;
      var i1 := i - 1;
      CollectOffsetAt(f, c, i1);
    }
  }

  lemma {:induction false} CollectLines(f: Stepper, ctx: Ctx, i: nat, j: nat)
    requires Advances(f) && WellPlaced(f) && i < j < |Collect(f, ctx)|
    decreases i
    ensures Collect(f, ctx)[i].pos.line <= Collect(f, ctx)[j].pos.line
  {
    var c := f(ctx).state;
    var j1 := j - 1;
    if i == 0 {
      CollectAt(f, c, j1);
    } else {
      var i1 := i - 1;
      CollectLines(f, c, i1, j1);
    }
  }

  lemma {:induction false} CollectOffsetsIncrease(f: Stepper, ctx: Ctx, i: nat, j: nat)
    requires Advances(f) && Indexed(f) && Aligned(ctx) && i < j < |Collect(f, ctx)|
    decreases i
    ensures Collect(f, ctx)[i].pos.offset < Collect(f, ctx)[j].pos.offset
  {
    var c := f(ctx).state;
    var j1 := j - 1;
    if i == 0 {
      CollectOffsetAt(f, c, j1);
    } else {
      var i1 := i - 1;
      CollectOffsetsIncrease(f, c, i1, j1);
    }
  }

  /** `Lexer.Scan` has all three per-step facts. */
  lemma ScanSteps()
    ensures Advances(Scan) && WellPlaced(Scan) && Indexed(Scan)
  {
  }

  /** The tokens of a query text. */
  function Lex(text: string): seq<Token> {
    ScanSteps();
    Collect(Scan, NewLexer(text))
  }

  /** A text has no tokens exactly when it is blank. */
  lemma LexBlank(text: string)
    ensures |Lex(text)| == 0 <==> forall k :: 0 <= k < |text| ==> IsBlank(text[k])
  {
    ScanSteps();
    ScanEndOfFile(NewLexer(text));
  }

  /** Every token of a text is a real token with a positive column, on line 1
      or later, starting at a non-blank byte of the text. */
  lemma LexTokensAt(text: string)
    ensures var ts := Lex(text);
      forall i :: 0 <= i < |ts| ==>
        && ts[i].kind != EOF && ts[i].pos.column >= 1 && ts[i].pos.line >= 1
        && 0 <= ts[i].pos.offset < |text| && !IsBlank(text[ts[i].pos.offset])
  {
    var ctx := NewLexer(text);
    var ts := Lex(text);
    ScanSteps();
    forall i | 0 <= i < |ts|
      ensures && ts[i].kind != EOF && ts[i].pos.column >= 1 && ts[i].pos.line >= 1
              && 0 <= ts[i].pos.offset < |text| && !IsBlank(text[ts[i].pos.offset])
    {
      CollectAt(Scan, ctx, i);
      CollectOffsetAt(Scan, ctx, i);
    }
  }

  /** The tokens of a text come in text order: offsets strictly increase and
      lines never go back. */
  lemma LexTokensOrdered(text: string)
    ensures var ts := Lex(text);
      forall i, j :: 0 <= i < j < |ts| ==>
        ts[i].pos.offset < ts[j].pos.offset && ts[i].pos.line <= ts[j].pos.line
  {
    var ctx := NewLexer(text);
    var ts := Lex(text);
    ScanSteps();
    forall i, j | 0 <= i < j < |ts|
      ensures ts[i].pos.offset < ts[j].pos.offset && ts[i].pos.line <= ts[j].pos.line
    {
      CollectLines(Scan, ctx, i, j);
      CollectOffsetsIncrease(Scan, ctx, i, j);
    }
  }
}
