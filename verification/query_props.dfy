/** What `Parse` makes of a whole token stream: when it rejects the query,
    and otherwise which tokens end up in the select list, the FROM clause,
    the WHERE condition and the ORDER BY clause. */
module QueryProps {
  import opened Outcomes
  import opened Const
  import opened Reader
  import opened TokenSeqs
  import opened Parser
  import opened ParserProps
  import opened SearchProps
  import opened OrderByProps

  const TableStop: set<TokenType> := {WHERE, ORDERBY}

  /** The table expression that follows FROM, and the tokens it leaves
      unread: the identifiers up to WHERE, ORDERBY or the end are the tables;
      after WHERE comes the search condition. */
  function TablePart(after: seq<Token>): (TableExpression, seq<Token>) {
    var m := FirstOf(after, TableStop);
    var from := FromClause(Keep(after[..m], {IDENT}));
    if m < |after| && after[m].kind == WHERE then
      var cond := ParseSearchCondition(TokensReader(after[m + 1..]));
      (TableExpression(from, WhereClause(Some(cond.0))), cond.1.tokens)
    else
      (TableExpression(from, WhereClause(None)), after[m..])
  }

  /** With neither WHERE nor ORDERBY after FROM, every identifier is a table
      and nothing is left for ORDER BY. */
  lemma TablePartToTheEnd(after: seq<Token>)
    requires Free(after, TableStop)
    ensures TablePart(after) == (TableExpression(FromClause(Keep(after, {IDENT})), WhereClause(None)), [])
  {
    FreeIsFirstOfEnd(after, TableStop);
    assert after[..|after|] == after;
  }

  /** Without a leading FROM the FROM clause is an invalid query. */
  lemma ParseFromClauseRejects(ts: seq<Token>)
    requires |ts| == 0 || ts[0].kind != FROM
    ensures ParseFromClause(TokensReader(ts)) == (Failure(InvalidQuery), TokensReader(ts))
  {
  }

  /** After FROM the clause holds the identifiers up to WHERE, ORDERBY or the
      end, which is where it leaves the reader. */
  lemma ParseFromClauseTables(ts: seq<Token>)
    requires |ts| > 0 && ts[0].kind == FROM
    ensures var after := ts[1..];
      var m := FirstOf(after, TableStop);
      ParseFromClause(TokensReader(ts))
        == (Success(FromClause(Keep(after[..m], {IDENT}))), TokensReader(after[m..]))
  {
    var after := ts[1..];
    var m := FirstOf(after, TableStop);
    assert Peek(TokensReader(ts), 1).value[0] == ts[0];
    TableListLoopSpec(after, []);
    NothingBefore(Keep(after[..m], {IDENT}));
  }

  /** Without a leading WHERE the WHERE clause is an invalid query; after
      WHERE it is the search condition of the rest. */
  lemma ParseWhereClauseCondition(ts: seq<Token>)
    ensures var r := ParseWhereClause(TokensReader(ts));
      && ((|ts| == 0 || ts[0].kind != WHERE) ==> r == (Failure(InvalidQuery), TokensReader(ts)))
      && (|ts| > 0 && ts[0].kind == WHERE ==>
            var cond := ParseSearchCondition(TokensReader(ts[1..]));
            r == (Success(WhereClause(Some(cond.0))), cond.1))
  {
    if |ts| > 0 {
      assert Peek(TokensReader(ts), 1).value[0] == ts[0];
    }
  }

  /** After FROM the table expression is `TablePart` of the rest. */
  lemma ParseTableExpressionParts(ts: seq<Token>)
    requires |ts| > 0 && ts[0].kind == FROM
    ensures var (te, rem) := TablePart(ts[1..]);
      ParseTableExpression(TokensReader(ts)) == (Success(te), TokensReader(rem))
  {
    var after := ts[1..];
    var m := FirstOf(after, TableStop);
    ParseFromClauseTables(ts);
    if m < |after| {
      assert Peek(TokensReader(after[m..]), 1).value[0] == after[m];
      ParseWhereClauseCondition(after[m..]);
      assert after[m..][1..] == after[m + 1..];
    }
  }

  /** The ORDER BY clause fails only on an empty group. */
  lemma ParseOrderByClauseError(ts: seq<Token>)
    ensures var r := ParseOrderByClause(TokensReader(ts)).0;
      r.Failure? ==> r.error == IndexOutOfRange
  {
    if |ts| > 0 && ts[0].kind == ORDERBY {
      ParseOrderByClauseSpecifications(ts);
    } else {
      ParseOrderByClauseAbsent(ts);
    }
  }

  /** Before a FROM the select list is the asterisks and identifiers before
      the first FROM, where it leaves the reader. */
  lemma ParseSelectListParts(ts: seq<Token>)
    requires FirstOf(ts, {FROM}) < |ts|
    ensures var k := FirstOf(ts, {FROM});
      ParseSelectList(TokensReader(ts)) == (Success(Keep(ts[..k], Kinds(ASTERISK, IDENT))), TokensReader(ts[k..]))
  {
    var k := FirstOf(ts, {FROM});
    SelectListLoopFound(ts, []);
    NothingBefore(Keep(ts[..k], Kinds(ASTERISK, IDENT)));
  }

  /** From FROM on: the table expression, then the ORDER BY clause read from
      what it leaves; only the ORDER BY clause can fail. */
  lemma ParseSelectRestParts(list: seq<Token>, rest: seq<Token>)
    requires |rest| > 0 && rest[0].kind == FROM
    ensures var (te, rem) := TablePart(rest[1..]);
      var ob := ParseOrderByClause(TokensReader(rem)).0;
      ParseSelectRest(list, TokensReader(rest)).0
        == if ob.Success? then Success(Select(list, te, ob.value)) else Failure(ob.error)
  {
    ParseTableExpressionParts(rest);
    var (te, rem) := TablePart(rest[1..]);
    ParseOrderByClauseError(rem);
  }

  /** A query that starts with SELECT and has a FROM: the select list is the
      asterisks and identifiers before the first FROM, the table expression
      is `TablePart` of what follows it, and the ORDER BY clause is read from
      what the table expression leaves; the query fails only when that
      clause does. */
  lemma ParseSelectParts(ts: seq<Token>)
    requires |ts| > 0 && ts[0].kind == SELECT && FirstOf(ts, {FROM}) < |ts|
    ensures var k := FirstOf(ts, {FROM});
      var list := Keep(ts[..k], Kinds(ASTERISK, IDENT));
      var (te, rem) := TablePart(ts[k + 1..]);
      var ob := ParseOrderByClause(TokensReader(rem)).0;
      Parse(TokensReader(ts)) == if ob.Success? then Success(Select(list, te, ob.value)) else Failure(ob.error)
  {
    var k := FirstOf(ts, {FROM});
    ParseStartsWithSelect(ts);
    ParseSelectListParts(ts);
    FromAt(ts, k);
    ParseSelectRestParts(Keep(ts[..k], Kinds(ASTERISK, IDENT)), ts[k..]);
  }

  /** A query that starts with SELECT is parsed as a SELECT statement. */
  lemma ParseStartsWithSelect(ts: seq<Token>)
    requires |ts| > 0 && ts[0].kind == SELECT
    ensures Parse(TokensReader(ts)) == ParseSelect(TokensReader(ts)).0
  {
    assert Peek(TokensReader(ts), 1).value[0] == ts[0];
  }

  /** A query that starts with SELECT but has no FROM is invalid: the select
      list runs into the end and the FROM clause finds nothing. */
  lemma ParseWithoutFrom(ts: seq<Token>)
    requires |ts| > 0 && ts[0].kind == SELECT && FirstOf(ts, {FROM}) == |ts|
    ensures Parse(TokensReader(ts)) == Failure(InvalidQuery)
  {
    assert Peek(TokensReader(ts), 1).value[0] == ts[0];
    SelectListLoopMissing(ts, []);
    ParseFromClauseRejects([]);
  }

  /** `Parse` answers ErrInvalidQuery exactly when the stream is empty, does
      not start with SELECT, or has no FROM; any other failure is an empty
      ORDER BY group. */
  lemma ParseInvalidQuery(ts: seq<Token>)
    ensures var r := Parse(TokensReader(ts));
      && (r == Failure(InvalidQuery) <==> |ts| == 0 || ts[0].kind != SELECT || FirstOf(ts, {FROM}) == |ts|)
      && (r.Failure? ==> r.error == InvalidQuery || r.error == IndexOutOfRange)
  {
    if |ts| > 0 && ts[0].kind == SELECT {
      if FirstOf(ts, {FROM}) < |ts| {
        ParseSelectParts(ts);
        var k := FirstOf(ts, {FROM});
        var (te, rem) := TablePart(ts[k + 1..]);
        ParseOrderByClauseError(rem);
      } else {
        ParseWithoutFrom(ts);
      }
    } else if |ts| > 0 {
      assert Peek(TokensReader(ts), 1).value[0] == ts[0];
    }
  }

  /** A WHERE condition without an AND/OR at depth zero reads the rest of the
      query, so a later ORDER BY ends up inside the condition and the query
      has no ORDER BY clause. */
  lemma WhereAbsorbsOrderBy(ts: seq<Token>)
    requires |ts| > 0 && ts[0].kind == SELECT && FirstOf(ts, {FROM}) < |ts|
    requires WhereToTheEnd(ts[FirstOf(ts, {FROM}) + 1..])
    ensures var k := FirstOf(ts, {FROM});
      var after := ts[k + 1..];
      var m := FirstOf(after, TableStop);
      var cond := after[m + 1..];
      Parse(TokensReader(ts))
        == Success(Select(Keep(ts[..k], Kinds(ASTERISK, IDENT)),
                          TableExpression(FromClause(Keep(after[..m], {IDENT})),
                                          WhereClause(Some(ParseBooleanValueExpression(TokensReader(Kept(cond, 0))).0))),
                          []))
  {
    var k := FirstOf(ts, {FROM});
    var after := ts[k + 1..];
    var m := FirstOf(after, TableStop);
    TablePartWhole(after);
    ParseToTheEnd(ts, after);
  }

  /** The tokens after FROM reach a WHERE whose condition has no AND/OR at
      depth zero. */
  predicate WhereToTheEnd(after: seq<Token>) {
    var m := FirstOf(after, TableStop);
    m < |after| && after[m].kind == WHERE && SplitAt(after[m + 1..], 0) == |after[m + 1..]|
  }

  /** A WHERE condition without an AND/OR at depth zero leaves nothing after
      the table expression. */
  lemma TablePartWhole(after: seq<Token>)
    requires WhereToTheEnd(after)
    ensures TablePart(after).1 == []
    ensures var m := FirstOf(after, TableStop);
      TablePart(after).0
        == TableExpression(FromClause(Keep(after[..m], {IDENT})),
                           WhereClause(Some(ParseBooleanValueExpression(TokensReader(Kept(after[m + 1..], 0))).0)))
  {
    var m := FirstOf(after, TableStop);
    ParseSearchConditionWhole(after[m + 1..]);
  }

  /** A query whose table expression reads every token after FROM has no
      ORDER BY clause and does not fail. */
  lemma ParseToTheEnd(ts: seq<Token>, after: seq<Token>)
    requires |ts| > 0 && ts[0].kind == SELECT && FirstOf(ts, {FROM}) < |ts|
    requires after == ts[FirstOf(ts, {FROM}) + 1..] && TablePart(after).1 == []
    ensures Parse(TokensReader(ts)) == Success(Select(Keep(ts[..FirstOf(ts, {FROM})], Kinds(ASTERISK, IDENT)), TablePart(after).0, []))
  {
    ParseSelectParts(ts);
    ParseOrderByClauseAbsent([]);
  }

  /** A query with neither WHERE nor ORDER BY after its FROM: the select list,
      then every identifier after FROM as a table. */
  lemma ParseWithoutWhere(ts: seq<Token>)
    requires |ts| > 0 && ts[0].kind == SELECT && FirstOf(ts, {FROM}) < |ts|
    requires Free(ts[FirstOf(ts, {FROM}) + 1..], TableStop)
    ensures var k := FirstOf(ts, {FROM});
      Parse(TokensReader(ts))
        == Success(Select(Keep(ts[..k], Kinds(ASTERISK, IDENT)),
                          TableExpression(FromClause(Keep(ts[k + 1..], {IDENT})), WhereClause(None)),
                          []))
  {
    var k := FirstOf(ts, {FROM});
    TablePartToTheEnd(ts[k + 1..]);
    ParseToTheEnd(ts, ts[k + 1..]);
  }
}
