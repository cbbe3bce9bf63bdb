/** What each parsing loop of parser.go computes, stated over the token
    sequence in the reader through the reference definitions of `TokenSeqs`. */
module ParserProps {
  import opened Outcomes
  import opened Const
  import opened Reader
  import opened TokenSeqs
  import opened Parser

  function Kinds(k: TokenType, l: TokenType): set<TokenType> { {k, l} }

  // ---------------------------------------------------------------------------
  // removeRedundantParen

  /** One pair is stripped exactly when three or more tokens run from an
      LPAREN to an RPAREN; then just those two go, whatever lies between. */
  lemma RemoveRedundantParenStrips(ts: seq<Token>)
    ensures var r := RemoveRedundantParen(ts);
      && (r != ts <==> |ts| >= 3 && ts[0].kind == LPAREN && ts[|ts| - 1].kind == RPAREN)
      && (r != ts ==> ts == [ts[0]] + r + [ts[|ts| - 1]])
  {
    var r := RemoveRedundantParen(ts);
    if |ts| >= 3 && ts[0].kind == LPAREN && ts[|ts| - 1].kind == RPAREN {
      assert |r| < |ts|;
      assert ts == [ts[0]] + ts[1..|ts| - 1] + [ts[|ts| - 1]];
    }
  }

  // ---------------------------------------------------------------------------
  // The select list and the table list

  /** One turn of the select-list loop over a token other than FROM. */
  lemma SelectListLoopStep(ts: seq<Token>, res: seq<Token>)
    requires |ts| > 0 && ts[0].kind != FROM
    ensures SelectListLoop(TokensReader(ts), res)
      == SelectListLoop(TokensReader(ts[1..]), res + Keep([ts[0]], Kinds(ASTERISK, IDENT)))
  {
    assert Peek(TokensReader(ts), 1).value[0] == ts[0];
    KeepOne(ts[0], Kinds(ASTERISK, IDENT));
    NothingAfter(res);
  }

  /** Up to the first FROM, the select list keeps the asterisks and the
      identifiers, in order, and leaves FROM unread. */
  lemma {:induction false} SelectListLoopFound(ts: seq<Token>, res: seq<Token>)
    requires FirstOf(ts, {FROM}) < |ts|
    decreases |ts|
    ensures var k := FirstOf(ts, {FROM});
      SelectListLoop(TokensReader(ts), res)
        == (Success(res + Keep(ts[..k], Kinds(ASTERISK, IDENT))), TokensReader(ts[k..]))
  {
    var kinds := Kinds(ASTERISK, IDENT);
    var k := FirstOf(ts, {FROM});
    if k > 0 {
      var res' := res + Keep([ts[0]], kinds);
      SelectListLoopStep(ts, res);
      SelectListLoopFound(ts[1..], res');
      KeepStep(res, ts, k, kinds);
      PrefixStep([], ts, k);
    } else {
      assert ts[..k] == [] && ts[k..] == ts;
      NothingAfter(res);
    }
  }

  /** With no FROM the select-list loop drains the reader and answers io.EOF,
      throwing away what it gathered. */
  lemma {:induction false} SelectListLoopMissing(ts: seq<Token>, res: seq<Token>)
    requires FirstOf(ts, {FROM}) == |ts|
    decreases |ts|
    ensures SelectListLoop(TokensReader(ts), res) == (Failure(EndOfFile), TokensReader([]))
  {
    if |ts| > 0 {
      SelectListLoopStep(ts, res);
      SelectListLoopMissing(ts[1..], res + Keep([ts[0]], Kinds(ASTERISK, IDENT)));
    }
  }

  /** One turn of the table-list loop over a token other than WHERE and
      ORDERBY. */
  lemma TableListLoopStep(ts: seq<Token>, tableList: seq<Token>)
    requires |ts| > 0 && ts[0].kind !in Kinds(WHERE, ORDERBY)
    ensures TableListLoop(TokensReader(ts), tableList)
      == TableListLoop(TokensReader(ts[1..]), tableList + Keep([ts[0]], {IDENT}))
  {
    assert Peek(TokensReader(ts), 1).value[0] == ts[0];
    KeepOne(ts[0], {IDENT});
    assert tableList + [] == tableList;
  }

  /** After FROM, the table list keeps the identifiers up to the first WHERE
      or ORDERBY, which is left unread. */
  lemma {:induction false} TableListLoopSpec(ts: seq<Token>, tableList: seq<Token>)
    decreases |ts|
    ensures var k := FirstOf(ts, Kinds(WHERE, ORDERBY));
      TableListLoop(TokensReader(ts), tableList)
        == (tableList + Keep(ts[..k], {IDENT}), TokensReader(ts[k..]))
  {
    var stop := Kinds(WHERE, ORDERBY);
    var k := FirstOf(ts, stop);
    if |ts| > 0 && ts[0].kind !in stop {
      var tableList' := tableList + Keep([ts[0]], {IDENT});
      TableListLoopStep(ts, tableList);
      TableListLoopSpec(ts[1..], tableList');
      KeepStep(tableList, ts, k, {IDENT});
      PrefixStep([], ts, k);
    } else {
      assert ts[..k] == [] && ts[k..] == ts;
      assert tableList + [] == tableList;
    }
  }

  /** One turn of the loop that gathers the right operand of a connective. */
  lemma SkipLoopStep(ts: seq<Token>, least: seq<Token>)
    requires |ts| > 0 && ts[0].kind !in Kinds(ORDERBY, GROUPBY)
    ensures SkipLoop(TokensReader(ts), least) == SkipLoop(TokensReader(ts[1..]), least + [ts[0]])
  {
  }

  /** The right operand of a connective runs up to the first ORDERBY or
      GROUPBY, which is left unread. */
  lemma {:induction false} SkipLoopSpec(ts: seq<Token>, least: seq<Token>)
    decreases |ts|
    ensures var k := FirstOf(ts, Kinds(ORDERBY, GROUPBY));
      SkipLoop(TokensReader(ts), least) == (least + ts[..k], TokensReader(ts[k..]))
  {
    var stop := Kinds(ORDERBY, GROUPBY);
    var k := FirstOf(ts, stop);
    if |ts| > 0 && ts[0].kind !in stop {
      SkipLoopStep(ts, least);
      SkipLoopSpec(ts[1..], least + [ts[0]]);
      PrefixStep(least, ts, k);
    } else {
      assert ts[..k] == [] && ts[k..] == ts;
      NothingAfter(least);
    }
  }

  // ---------------------------------------------------------------------------
  // parseBooleanValueExpression

  const Comparisons: set<TokenType> := {EQUAL, LSS, GTR}

  /** The tokens of a condition tree, read left to right with every operator
      and connective put back in place. */
  function Flatten(e: Expr): seq<Token> {
    match e
    case Raw(ts) => ts
    case ValueExpr(op, l, r) => Flatten(l) + [op] + Flatten(r)
    case BooleanTerm(b, l, r) => Flatten(l) + [b] + Flatten(r)
  }

  /** A stretch without `=`, `<` or `>`. */
  predicate NoComparison(ts: seq<Token>) {
    FirstOf(ts, Comparisons) == |ts|
  }

  /** A chain of comparisons nesting to the right: every left value is a raw
      stretch without an operator, and so is the last right value. */
  predicate ValueChain(e: Expr) {
    match e
    case Raw(ts) => NoComparison(ts)
    case ValueExpr(op, l, r) => op.kind in Comparisons && l.Raw? && NoComparison(l.tokens) && ValueChain(r)
    case BooleanTerm(_, _, _) => false
  }

  /** One turn of the value loop over a token that is not an operator. */
  lemma ValueLoopStep(ts: seq<Token>, left: seq<Token>)
    requires |ts| > 0 && ts[0].kind !in Comparisons
    ensures ValueLoop(TokensReader(ts), left) == ValueLoop(TokensReader(ts[1..]), left + [ts[0]])
  {
    assert Peek(TokensReader(ts), 1).value[0] == ts[0];
  }

  /** Without an operator the value loop gathers everything into one raw
      stretch and drains the reader. */
  lemma {:induction false} ValueLoopNone(ts: seq<Token>, left: seq<Token>)
    requires NoComparison(ts)
    decreases |ts|
    ensures ValueLoop(TokensReader(ts), left) == (Raw(left + ts), TokensReader([]))
  {
    if |ts| > 0 {
      ValueLoopStep(ts, left);
      FirstOfTail(ts, Comparisons);
      ValueLoopNone(ts[1..], left + [ts[0]]);
      AppendStep(left, ts);
    } else {
      assert ts == [];
      NothingAfter(left);
    }
  }

  /** At the first operator the value loop hands the tokens gathered so far
      to the operator case together with the reader just past the operator;
      there the gathered tokens are parsed as the left value and the rest of
      the reader as the right value. */
  lemma {:induction false} ValueLoopFound(ts: seq<Token>, left: seq<Token>)
    requires FirstOf(ts, Comparisons) < |ts|
    decreases |ts|
    ensures var k := FirstOf(ts, Comparisons);
      ValueLoop(TokensReader(ts), left) == Compare(ts[k], left + ts[..k], TokensReader(ts[k + 1..]))
  {
    var k := FirstOf(ts, Comparisons);
    if k > 0 {
      ValueLoopStep(ts, left);
      FirstOfTail(ts, Comparisons);
      ValueLoopFound(ts[1..], left + [ts[0]]);
      PrefixStep(left, ts, k);
      Shifted(ts, k);
    } else {
      ValueLoopAtOperator(ts, left);
    }
  }

  /** An operator right at the front. */
  lemma ValueLoopAtOperator(ts: seq<Token>, left: seq<Token>)
    requires 0 < |ts| && ts[0].kind in Comparisons
    ensures ValueLoop(TokensReader(ts), left) == Compare(ts[0], left + ts[..0], TokensReader(ts[1..]))
  {
    assert Peek(TokensReader(ts), 1).value[0] == ts[0];
    assert ts[..0] == [];
    NothingAfter(left);
  }

  /** The operator case: the gathered tokens are parsed as the left value and
      the rest of the reader as the right value, which reads on from there. */
  lemma CompareSplits(rest: seq<Token>)
    ensures var right := ParseBooleanValueExpression(TokensReader(rest));
      forall tok, left :: Compare(tok, left, TokensReader(rest))
        == (ValueExpr(tok, ParseBooleanValueExpression(TokensReader(left)).0, right.0), right.1)
  {
  }

  /** A prefix before the first stop token holds no stop token. */
  lemma PrefixBeforeFirst(ts: seq<Token>, stop: set<TokenType>)
    ensures var k := FirstOf(ts, stop); FirstOf(ts[..k], stop) == k
  {
    var k := FirstOf(ts, stop);
    FirstOfUnique(ts[..k], stop, k);
  }

  /** parseBooleanValueExpression reads to the end of its reader. */
  lemma {:induction false} ParseBooleanValueExpressionDrains(ts: seq<Token>)
    decreases |ts|
    ensures ParseBooleanValueExpression(TokensReader(ts)).1 == TokensReader([])
  {
    var k := FirstOf(ts, Comparisons);
    if k < |ts| {
      ValueAtOperator(ts);
      CompareSplits(ts[k + 1..]);
      ParseBooleanValueExpressionDrains(ts[k + 1..]);
    } else {
      ValueLoopNone(ts, []);
    }
  }

  /** Without an operator the result is the input as a raw stretch. */
  lemma ParseBooleanValueExpressionRaw(ts: seq<Token>)
    requires NoComparison(ts)
    ensures ParseBooleanValueExpression(TokensReader(ts)).0 == Raw(ts)
  {
    ValueLoopNone(ts, []);
    NothingBefore(ts);
  }

  /** With an operator the result is the stretch before the first operator,
      the operator, and the parse of what follows it. */
  lemma ParseBooleanValueExpressionAtOperator(ts: seq<Token>)
    requires FirstOf(ts, Comparisons) < |ts|
    ensures var k := FirstOf(ts, Comparisons);
      ParseBooleanValueExpression(TokensReader(ts)).0
        == ValueExpr(ts[k], Raw(ts[..k]), ParseBooleanValueExpression(TokensReader(ts[k + 1..])).0)
  {
    var k := FirstOf(ts, Comparisons);
    ValueAtOperator(ts);
    CompareSplits(ts[k + 1..]);
    PrefixBeforeFirst(ts, Comparisons);
    ParseBooleanValueExpressionRaw(ts[..k]);
  }

  /** With an operator the value expression goes to the operator case with
      the tokens before the first operator. */
  lemma ValueAtOperator(ts: seq<Token>)
    requires FirstOf(ts, Comparisons) < |ts|
    ensures var k := FirstOf(ts, Comparisons);
      ParseBooleanValueExpression(TokensReader(ts)) == Compare(ts[k], ts[..k], TokensReader(ts[k + 1..]))
  {
    ValueLoopFound(ts, []);
    NothingBefore(ts[..FirstOf(ts, Comparisons)]);
  }

  /** Both cases together. */
  lemma ParseBooleanValueExpressionSplits(ts: seq<Token>)
    ensures var e := ParseBooleanValueExpression(TokensReader(ts)).0;
      var k := FirstOf(ts, Comparisons);
      && (k == |ts| ==> e == Raw(ts))
      && (k < |ts| ==> e == ValueExpr(ts[k], Raw(ts[..k]), ParseBooleanValueExpression(TokensReader(ts[k + 1..])).0))
  {
    if FirstOf(ts, Comparisons) < |ts| {
      ParseBooleanValueExpressionAtOperator(ts);
    } else {
      ParseBooleanValueExpressionRaw(ts);
    }
  }

  /** Flattening the parsed value expression gives its tokens back. */
  lemma {:induction false} ParseBooleanValueExpressionFlattens(ts: seq<Token>)
    decreases |ts|
    ensures Flatten(ParseBooleanValueExpression(TokensReader(ts)).0) == ts
  {
    var k := FirstOf(ts, Comparisons);
    ParseBooleanValueExpressionSplits(ts);
    if k < |ts| {
      ParseBooleanValueExpressionFlattens(ts[k + 1..]);
      Around(ts, k);
    }
  }

  /** The parsed value expression is a right-nested chain of comparisons. */
  lemma {:induction false} ParseBooleanValueExpressionIsChain(ts: seq<Token>)
    decreases |ts|
    ensures ValueChain(ParseBooleanValueExpression(TokensReader(ts)).0)
  {
    var k := FirstOf(ts, Comparisons);
    ParseBooleanValueExpressionSplits(ts);
    if k < |ts| {
      PrefixBeforeFirst(ts, Comparisons);
      ParseBooleanValueExpressionIsChain(ts[k + 1..]);
    }
  }

  /** A right-nested chain of comparisons is what parseBooleanValueExpression
      makes of its own tokens, so the chain shape and the tokens determine the
      parse. */
  lemma {:induction false} ValueChainIsParse(e: Expr)
    requires ValueChain(e)
    ensures ParseBooleanValueExpression(TokensReader(Flatten(e))).0 == e
  {
    match e
    case Raw(ts) =>
      ParseBooleanValueExpressionSplits(ts);
    case ValueExpr(op, l, r) =>
      var ts := Flatten(e);
      var n := |l.tokens|;
      assert l.Raw? && NoComparison(l.tokens) && ValueChain(r);
      assert Flatten(l) == l.tokens;
      SplitAround(l.tokens, op, Flatten(r));
      assert forall k :: 0 <= k < n ==> ts[k].kind !in Comparisons by {
        forall k | 0 <= k < n ensures ts[k].kind !in Comparisons {
          assert ts[k] == ts[..n][k];
        }
      }
      FirstOfUnique(ts, Comparisons, n);
      ParseBooleanValueExpressionSplits(ts);
      ValueChainIsParse(r);
  }

  // ---------------------------------------------------------------------------
  // parseSearchCondition

  const RightStop: set<TokenType> := {ORDERBY, GROUPBY}

  /** Whether the search loop drops a parenthesis met at depth `d`: it is
      dropped when it takes the depth below zero. */
  predicate Dropped(k: TokenType, d: int) {
    (k == LPAREN || k == RPAREN) && d + Delta(k) < 0
  }

  /** What the search loop gathers of one token met at depth `d`. */
  function KeptHead(t: Token, d: int): seq<Token> {
    if Dropped(t.kind, d) then [] else [t]
  }

  /** The tokens the search loop gathers along a stretch entered at depth `d`
      when no connective splits it: all but the dropped parentheses. */
  function Kept(ts: seq<Token>, d: int): seq<Token>
    decreases |ts|
  {
    if |ts| == 0 then [] else KeptHead(ts[0], d) + Kept(ts[1..], d + Delta(ts[0].kind))
  }

  /** The index of the first AND/OR met at depth zero along a stretch entered
      at depth `d`, or the length of the stretch when there is none. */
  function SplitAt(ts: seq<Token>, d: int): (i: nat)
    decreases |ts|
    ensures i <= |ts|
    ensures i < |ts| ==> IsConnective(ts[i].kind)
  {
    if |ts| == 0 then 0
    else if IsConnective(ts[0].kind) && d == 0 then 0
    else 1 + SplitAt(ts[1..], d + Delta(ts[0].kind))
  }

  /** Past a token that does not split, the split is one further on. */
  lemma SplitAtTail(ts: seq<Token>, d: int)
    requires |ts| > 0 && !(IsConnective(ts[0].kind) && d == 0)
    ensures SplitAt(ts, d) == 1 + SplitAt(ts[1..], d + Delta(ts[0].kind))
  {
  }

  /** One turn of the search loop over a token that does not split. */
  lemma SearchLoopStep(ts: seq<Token>, d: int, left: seq<Token>)
    requires |ts| > 0 && !(IsConnective(ts[0].kind) && d == 0)
    ensures SearchLoop(TokensReader(ts), d, left)
      == SearchLoop(TokensReader(ts[1..]), d + Delta(ts[0].kind), left + KeptHead(ts[0], d))
  {
    assert Peek(TokensReader(ts), 1).value[0] == ts[0];
    NothingAfter(left);
  }

  /** Gathering along a prefix, one token at a time. */
  lemma KeptStep(a: seq<Token>, ts: seq<Token>, k: nat, d: int)
    requires 0 < k <= |ts|
    ensures (a + KeptHead(ts[0], d)) + Kept(ts[1..][..k - 1], d + Delta(ts[0].kind)) == a + Kept(ts[..k], d)
  {
    assert ts[..k][0] == ts[0] && ts[..k][1..] == ts[1..][..k - 1];
  }

  /** Gathering along a whole stretch, one token at a time. */
  lemma KeptWhole(a: seq<Token>, ts: seq<Token>, d: int)
    requires 0 < |ts|
    ensures (a + KeptHead(ts[0], d)) + Kept(ts[1..], d + Delta(ts[0].kind)) == a + Kept(ts, d)
  {
  }

  /** Without a splitting connective the search loop gathers everything but
      the dropped parentheses, drains the reader and parses the gathered
      tokens as a value expression. */
  lemma {:induction false} SearchLoopNone(ts: seq<Token>, d: int, left: seq<Token>)
    requires SplitAt(ts, d) == |ts|
    decreases |ts|
    ensures SearchLoop(TokensReader(ts), d, left)
      == (ParseBooleanValueExpression(TokensReader(left + Kept(ts, d))).0, TokensReader([]))
  {
    if |ts| > 0 {
      SplitAtTail(ts, d);
      SearchLoopStep(ts, d, left);
      SearchLoopNone(ts[1..], d + Delta(ts[0].kind), left + KeptHead(ts[0], d));
      KeptWhole(left, ts, d);
    } else {
      NothingAfter(left);
    }
  }

  /** At the first AND/OR at depth zero the search loop hands the tokens
      gathered so far, all but the dropped parentheses, to the connective case
      together with the reader just past the connective. */
  lemma {:induction false} SearchLoopFound(ts: seq<Token>, d: int, left: seq<Token>)
    requires SplitAt(ts, d) < |ts|
    decreases |ts|, 1
    ensures var k := SplitAt(ts, d);
      SearchLoop(TokensReader(ts), d, left)
        == Connect(ts[k], left + Kept(ts[..k], d), TokensReader(ts[k + 1..]))
  {
    if SplitAt(ts, d) > 0 {
      SearchLoopFoundPast(ts, d, left);
    } else {
      SearchLoopAtConnective(ts, d, left);
    }
  }

  /** The same, when the connective is not at the front: one turn, then the
      rest of the stretch. */
  lemma {:induction false} SearchLoopFoundPast(ts: seq<Token>, d: int, left: seq<Token>)
    requires 0 < SplitAt(ts, d) < |ts|
    decreases |ts|, 0
    ensures var k := SplitAt(ts, d);
      SearchLoop(TokensReader(ts), d, left)
        == Connect(ts[k], left + Kept(ts[..k], d), TokensReader(ts[k + 1..]))
  {
    var k := SplitAt(ts, d);
    var ts', d', left' := ts[1..], d + Delta(ts[0].kind), left + KeptHead(ts[0], d);
    var k' := SplitAt(ts', d');
    assert k' < |ts'| by { SplitAtTail(ts, d); }
    calc {
      SearchLoop(TokensReader(ts), d, left);
      { SearchLoopStep(ts, d, left); }
      SearchLoop(TokensReader(ts'), d', left');
      { SearchLoopFound(ts', d', left'); }
      Connect(ts'[k'], left' + Kept(ts'[..k'], d'), TokensReader(ts'[k' + 1..]));
      { FoundArgs(ts, d, left); }
      Connect(ts[k], left + Kept(ts[..k], d), TokensReader(ts[k + 1..]));
    }
  }

  /** The split and the gathered tokens seen from one token further on. */
  lemma FoundArgs(ts: seq<Token>, d: int, left: seq<Token>)
    requires 0 < SplitAt(ts, d) < |ts|
    ensures var k := SplitAt(ts, d); var ts', d' := ts[1..], d + Delta(ts[0].kind); var k' := SplitAt(ts', d');
      && k' < |ts'|
      && ts'[k'] == ts[k] && ts'[k' + 1..] == ts[k + 1..]
      && (left + KeptHead(ts[0], d)) + Kept(ts'[..k'], d') == left + Kept(ts[..k], d)
  {
    var k := SplitAt(ts, d);
    SplitAtTail(ts, d);
    KeptStep(left, ts, k, d);
    Shifted(ts, k);
  }

  /** A connective at depth zero right at the front. */
  lemma SearchLoopAtConnective(ts: seq<Token>, d: int, left: seq<Token>)
    requires 0 < |ts| && IsConnective(ts[0].kind) && d == 0
    ensures SearchLoop(TokensReader(ts), d, left) == Connect(ts[0], left + Kept(ts[..0], d), TokensReader(ts[1..]))
  {
    assert Peek(TokensReader(ts), 1).value[0] == ts[0];
    assert ts[..0] == [];
    NothingAfter(left);
  }

  /** The connective case: the gathered tokens, stripped of one enclosing
      pair, are the left operand; the tokens after the connective up to
      ORDERBY, GROUPBY or the end, stripped the same way, the right operand;
      each is parsed on its own, and the reader is left at the stop token. */
  lemma ConnectSplits(tok: Token, left: seq<Token>, rest: seq<Token>)
    ensures var j := FirstOf(rest, RightStop);
      Connect(tok, left, TokensReader(rest))
        == (BooleanTerm(tok,
              ParseSearchCondition(TokensReader(RemoveRedundantParen(left))).0,
              ParseSearchCondition(TokensReader(RemoveRedundantParen(rest[..j]))).0),
            TokensReader(rest[j..]))
  {
    SkipLoopSpec(rest, []);
    NothingBefore(rest[..FirstOf(rest, RightStop)]);
  }
}
