/** What parseSearchCondition makes of a WHERE condition, stated through the
    depth-tracking reference definitions of `ParserProps`; for conditions
    without parentheses, the exact tree: a right-nested chain of AND/OR
    whose operands are comparison chains. */
module SearchProps {
  import opened Outcomes
  import opened Const
  import opened Reader
  import opened TokenSeqs
  import opened Parser
  import opened ParserProps

  const Connectives: set<TokenType> := {AND, OR}

  /** The kinds a condition without parentheses and without a trailing
      ORDER BY or GROUP BY does not hold. */
  const Structural: set<TokenType> := {LPAREN, RPAREN, ORDERBY, GROUPBY}

  /** A condition without parentheses, ORDER BY or GROUP BY. */
  predicate Plain(ts: seq<Token>) {
    Free(ts, Structural)
  }

  /** A chain of AND/OR nesting to the right whose operands are comparison
      chains without connectives. */
  predicate ConditionChain(e: Expr) {
    match e
    case BooleanTerm(b, l, r) =>
      b.kind in Connectives && ValueChain(l) && Free(Flatten(l), Connectives) && ConditionChain(r)
    case _ => ValueChain(e) && Free(Flatten(e), Connectives)
  }

  /** Without a splitting connective the condition is the value expression
      of all its tokens but the dropped parentheses, and the reader is
      drained, ORDER BY and all. */
  lemma ParseSearchConditionWhole(ts: seq<Token>)
    requires SplitAt(ts, 0) == |ts|
    ensures ParseSearchCondition(TokensReader(ts))
      == (ParseBooleanValueExpression(TokensReader(Kept(ts, 0))).0, TokensReader([]))
  {
    SearchLoopNone(ts, 0, []);
    NothingBefore(Kept(ts, 0));
  }

  /** At the first AND/OR at depth zero the condition goes to the connective
      case with the tokens before it, all but the dropped parentheses. */
  lemma ParseSearchConditionAtConnective(ts: seq<Token>)
    requires SplitAt(ts, 0) < |ts|
    ensures var k := SplitAt(ts, 0);
      ParseSearchCondition(TokensReader(ts)) == Connect(ts[k], Kept(ts[..k], 0), TokensReader(ts[k + 1..]))
  {
    var k := SplitAt(ts, 0);
    SearchLoopFound(ts, 0, []);
    NothingBefore(Kept(ts[..k], 0));
  }

  /** At the first AND/OR at depth zero the condition is a BooleanTerm of
      the connective, the parse of the tokens before it and the parse of the
      tokens after it up to ORDERBY, GROUPBY or the end, each stripped of one
      enclosing pair; the reader is left at the stop token. */
  lemma ParseSearchConditionConnective(ts: seq<Token>)
    requires SplitAt(ts, 0) < |ts|
    ensures var k := SplitAt(ts, 0);
      var rest := ts[k + 1..];
      var j := FirstOf(rest, RightStop);
      ParseSearchCondition(TokensReader(ts))
        == (BooleanTerm(ts[k],
              ParseSearchCondition(TokensReader(RemoveRedundantParen(Kept(ts[..k], 0)))).0,
              ParseSearchCondition(TokensReader(RemoveRedundantParen(rest[..j]))).0),
            TokensReader(rest[j..]))
  {
    var k := SplitAt(ts, 0);
    ParseSearchConditionAtConnective(ts);
    ConnectSplits(ts[k], Kept(ts[..k], 0), ts[k + 1..]);
  }

  /** The connective case leaves the reader at the first ORDERBY or GROUPBY
      after the connective, or drained. */
  lemma ConnectRemainder(rest: seq<Token>)
    ensures forall tok, left :: Connect(tok, left, TokensReader(rest)).1 == TokensReader(rest[FirstOf(rest, RightStop)..])
  {
    SkipLoopSpec(rest, []);
  }

  /** `r` is a suffix of `ts` that is empty or starts with ORDERBY or
      GROUPBY. */
  predicate StopSuffixOf(r: seq<Token>, ts: seq<Token>) {
    && |r| <= |ts| && r == ts[|ts| - |r|..]
    && (|r| > 0 ==> r[0].kind in RightStop)
  }

  /** What parseSearchCondition leaves unread is a suffix of its input that
      is empty or starts with ORDERBY or GROUPBY. */
  lemma ParseSearchConditionRemainder(ts: seq<Token>)
    ensures StopSuffixOf(ParseSearchCondition(TokensReader(ts)).1.tokens, ts)
  {
    if SplitAt(ts, 0) < |ts| {
      RemainderAtConnective(ts);
    } else {
      RemainderWhole(ts);
    }
  }

  /** Without a splitting connective nothing is left. */
  lemma RemainderWhole(ts: seq<Token>)
    requires SplitAt(ts, 0) == |ts|
    ensures StopSuffixOf(ParseSearchCondition(TokensReader(ts)).1.tokens, ts)
  {
    ParseSearchConditionWhole(ts);
    assert ts[|ts|..] == [];
  }

  /** At a connective what is left starts at the first ORDERBY or GROUPBY
      after it. */
  lemma RemainderAtConnective(ts: seq<Token>)
    requires SplitAt(ts, 0) < |ts|
    ensures StopSuffixOf(ParseSearchCondition(TokensReader(ts)).1.tokens, ts)
  {
    ConnectiveReader(ts);
    StopSuffix(ts, SplitAt(ts, 0) + 1);
  }

  /** At a connective the reader is left at the first ORDERBY or GROUPBY
      after it. */
  lemma ConnectiveReader(ts: seq<Token>)
    requires SplitAt(ts, 0) < |ts|
    ensures var rest := ts[SplitAt(ts, 0) + 1..];
      ParseSearchCondition(TokensReader(ts)).1.tokens == rest[FirstOf(rest, RightStop)..]
  {
    ParseSearchConditionAtConnective(ts);
    ConnectRemainder(ts[SplitAt(ts, 0) + 1..]);
  }

  /** From the first ORDERBY or GROUPBY past `n` on, a stretch is a suffix
      of the whole that is empty or starts with the stop token. */
  lemma StopSuffix(ts: seq<Token>, n: nat)
    requires n <= |ts|
    ensures StopSuffixOf(ts[n..][FirstOf(ts[n..], RightStop)..], ts)
  {
    var rest := ts[n..];
    var j := FirstOf(rest, RightStop);
    assert rest[j..] == ts[n + j..];
    assert |ts| - |ts[n + j..]| == n + j;
  }

  /** Along a stretch without parentheses nothing is dropped. */
  lemma {:induction false} KeptWithoutParens(ts: seq<Token>, d: int)
    requires Free(ts, {LPAREN, RPAREN})
    decreases |ts|
    ensures Kept(ts, d) == ts
  {
    if |ts| > 0 {
      KeptWithoutParens(ts[1..], d + Delta(ts[0].kind));
    }
  }

  /** Along a stretch without parentheses the depth stays zero, so the split
      is at the first AND/OR. */
  lemma {:induction false} SplitAtWithoutParens(ts: seq<Token>)
    requires Free(ts, {LPAREN, RPAREN})
    decreases |ts|
    ensures SplitAt(ts, 0) == FirstOf(ts, Connectives)
  {
    if |ts| > 0 && ts[0].kind !in Connectives {
      SplitAtWithoutParens(ts[1..]);
    }
  }

  /** The facts about a plain condition that its parse relies on. */
  lemma PlainFacts(ts: seq<Token>)
    requires Plain(ts)
    ensures Kept(ts, 0) == ts
    ensures SplitAt(ts, 0) == FirstOf(ts, Connectives)
    ensures RemoveRedundantParen(ts) == ts
    ensures FirstOf(ts, RightStop) == |ts|
  {
    KeptWithoutParens(ts, 0);
    SplitAtWithoutParens(ts);
    FreeIsFirstOfEnd(ts, RightStop);
  }

  /** A plain condition without connectives is its value expression. */
  lemma PlainValue(ts: seq<Token>)
    requires Plain(ts) && Free(ts, Connectives)
    ensures ParseSearchCondition(TokensReader(ts))
      == (ParseBooleanValueExpression(TokensReader(ts)).0, TokensReader([]))
  {
    PlainFacts(ts);
    FreeIsFirstOfEnd(ts, Connectives);
    ParseSearchConditionWhole(ts);
  }

  /** The pieces of a plain condition around its first connective are plain,
      and the one before it holds no connective. */
  lemma PlainPieces(ts: seq<Token>)
    requires Plain(ts) && FirstOf(ts, Connectives) < |ts|
    ensures var k := FirstOf(ts, Connectives);
      Plain(ts[..k]) && Free(ts[..k], Connectives) && Plain(ts[k + 1..])
  {
    var k := FirstOf(ts, Connectives);
    PrefixBeforeFirst(ts, Connectives);
    FreeIsFirstOfEnd(ts[..k], Connectives);
  }

  /** The connective case over plain operands: each is parsed as it is and
      the reader is drained. */
  lemma ConnectPlain(tok: Token, before: seq<Token>, rest: seq<Token>)
    requires Plain(before) && Plain(rest)
    ensures Connect(tok, before, TokensReader(rest))
      == (BooleanTerm(tok,
            ParseSearchCondition(TokensReader(before)).0,
            ParseSearchCondition(TokensReader(rest)).0),
          TokensReader([]))
  {
    PlainFacts(before);
    PlainFacts(rest);
    SkipLoopSpec(rest, []);
    assert [] + rest[..|rest|] == rest && rest[|rest|..] == [];
  }

  /** A plain condition with a connective: the parse of the tokens before
      the first AND/OR, the connective, and the parse of the rest. */
  lemma PlainConnective(ts: seq<Token>)
    requires Plain(ts) && FirstOf(ts, Connectives) < |ts|
    ensures var k := FirstOf(ts, Connectives);
      ParseSearchCondition(TokensReader(ts))
        == (BooleanTerm(ts[k],
              ParseSearchCondition(TokensReader(ts[..k])).0,
              ParseSearchCondition(TokensReader(ts[k + 1..])).0),
            TokensReader([]))
  {
    var k := FirstOf(ts, Connectives);
    var before, rest := ts[..k], ts[k + 1..];
    PlainFacts(ts);
    PlainPieces(ts);
    ParseSearchConditionAtConnective(ts);
    KeptWithoutParens(before, 0);
    ConnectPlain(ts[k], before, rest);
  }

  /** A plain condition is parsed whole. */
  lemma {:induction false} PlainDrains(ts: seq<Token>)
    requires Plain(ts)
    ensures ParseSearchCondition(TokensReader(ts)).1 == TokensReader([])
  {
    if FirstOf(ts, Connectives) < |ts| {
      PlainConnective(ts);
    } else {
      FreeIsFirstOfEnd(ts, Connectives);
      PlainValue(ts);
    }
  }

  /** Flattening the tree of a plain condition gives its tokens back. */
  lemma {:induction false} PlainFlattens(ts: seq<Token>)
    requires Plain(ts)
    decreases |ts|
    ensures Flatten(ParseSearchCondition(TokensReader(ts)).0) == ts
  {
    var k := FirstOf(ts, Connectives);
    if k < |ts| {
      var before, rest := ts[..k], ts[k + 1..];
      PlainConnective(ts);
      PlainPieces(ts);
      PlainFlattens(before);
      PlainFlattens(rest);
      Around(ts, k);
    } else {
      FreeIsFirstOfEnd(ts, Connectives);
      PlainValue(ts);
      ParseBooleanValueExpressionFlattens(ts);
    }
  }

  /** A plain condition parses to a right-nested chain of AND/OR over
      comparison chains. */
  lemma {:induction false} PlainIsChain(ts: seq<Token>)
    requires Plain(ts)
    decreases |ts|
    ensures ConditionChain(ParseSearchCondition(TokensReader(ts)).0)
  {
    var k := FirstOf(ts, Connectives);
    if k < |ts| {
      var before := ts[..k];
      PlainConnective(ts);
      PlainPieces(ts);
      PlainValue(before);
      ParseBooleanValueExpressionIsChain(before);
      ParseBooleanValueExpressionFlattens(before);
      PlainIsChain(ts[k + 1..]);
    } else {
      FreeIsFirstOfEnd(ts, Connectives);
      PlainValue(ts);
      ParseBooleanValueExpressionIsChain(ts);
      ParseBooleanValueExpressionFlattens(ts);
    }
  }

  /** A right-nested chain of AND/OR over comparison chains whose tokens are
      plain is what parseSearchCondition makes of those tokens, so for plain
      conditions the chain shape and the tokens determine the parse. */
  lemma {:induction false} ConditionChainIsParse(e: Expr)
    requires ConditionChain(e) && Plain(Flatten(e))
    ensures ParseSearchCondition(TokensReader(Flatten(e))).0 == e
  {
    var ts := Flatten(e);
    match e
    case BooleanTerm(b, l, r) =>
      var n := |Flatten(l)|;
      assert ts == Flatten(l) + [b] + Flatten(r);
      SplitAround(Flatten(l), b, Flatten(r));
      assert forall i :: 0 <= i < n ==> ts[i].kind !in Connectives by {
        forall i | 0 <= i < n ensures ts[i].kind !in Connectives {
          assert ts[i] == ts[..n][i];
        }
      }
      FirstOfUnique(ts, Connectives, n);
      PlainConnective(ts);
      PlainPieces(ts);
      PlainValue(Flatten(l));
      ValueChainIsParse(l);
      ConditionChainIsParse(r);
    case _ =>
      FreeIsFirstOfEnd(ts, Connectives);
      PlainValue(ts);
      ValueChainIsParse(e);
  }
}
