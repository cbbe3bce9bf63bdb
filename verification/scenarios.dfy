/** Queries worked through the model, each stated over tokens of the given
    kinds whatever their values and positions. Several follow the token
    arrays of parser_test.go; where the code and the expectations written
    there differ, these state what the code does. */
module Scenarios {
  import opened Outcomes
  import opened Const
  import opened Reader
  import opened TokenSeqs
  import opened Parser
  import opened ParserProps
  import opened SearchProps
  import opened OrderByProps
  import opened QueryProps

  /** `a op b` over two plain operands is a comparison chain. */
  lemma ComparisonShape(a: Token, op: Token, b: Token)
    requires a.kind in {IDENT, INT} && op.kind in Comparisons && b.kind in {IDENT, INT}
    ensures var e := ValueExpr(op, Raw([a]), Raw([b]));
      && Flatten(e) == [a, op, b]
      && ValueChain(e) && Free(Flatten(e), Connectives) && ConditionChain(e)
  {
    FirstOfUnique([a], Comparisons, 1);
    FirstOfUnique([b], Comparisons, 1);
    assert Flatten(Raw([a])) == [a];
  }

  /** The tree of `id = 1 AND age = 20` is a plain condition chain. */
  lemma ConjunctionShape(id: Token, eq1: Token, one: Token, and: Token, age: Token, eq2: Token, twenty: Token)
    requires id.kind == IDENT && eq1.kind == EQUAL && one.kind == INT && and.kind == AND
    requires age.kind == IDENT && eq2.kind == EQUAL && twenty.kind == INT
    ensures var e := BooleanTerm(and, ValueExpr(eq1, Raw([id]), Raw([one])), ValueExpr(eq2, Raw([age]), Raw([twenty])));
      && Flatten(e) == [id, eq1, one, and, age, eq2, twenty]
      && ConditionChain(e) && Plain(Flatten(e))
  {
    ComparisonShape(id, eq1, one);
    ComparisonShape(age, eq2, twenty);
  }

  /** `id = 1 AND age = 20` is a BooleanTerm of two comparisons. */
  lemma ConjunctionOfComparisons(id: Token, eq1: Token, one: Token, and: Token, age: Token, eq2: Token, twenty: Token)
    requires id.kind == IDENT && eq1.kind == EQUAL && one.kind == INT && and.kind == AND
    requires age.kind == IDENT && eq2.kind == EQUAL && twenty.kind == INT
    ensures ParseSearchCondition(TokensReader([id, eq1, one, and, age, eq2, twenty])).0
      == BooleanTerm(and, ValueExpr(eq1, Raw([id]), Raw([one])), ValueExpr(eq2, Raw([age]), Raw([twenty])))
  {
    ConjunctionShape(id, eq1, one, and, age, eq2, twenty);
    ConditionChainIsParse(BooleanTerm(and, ValueExpr(eq1, Raw([id]), Raw([one])), ValueExpr(eq2, Raw([age]), Raw([twenty]))));
  }

  /** `a op b EOF`: the trailing EOF token is one more token of the right
      value. */
  lemma ComparisonWithEofShape(a: Token, op: Token, b: Token, eof: Token)
    requires a.kind == IDENT && op.kind in Comparisons && b.kind == INT && eof.kind == EOF
    ensures var e := ValueExpr(op, Raw([a]), Raw([b, eof]));
      && Flatten(e) == [a, op, b, eof]
      && ValueChain(e) && Free(Flatten(e), Connectives) && ConditionChain(e)
  {
    FirstOfUnique([a], Comparisons, 1);
    FirstOfUnique([b, eof], Comparisons, 2);
    assert Flatten(Raw([a])) == [a];
  }

  /** The token array of `id = 1 AND age = 20` in parser_test.go ends in an
      EOF token; the reader hands it out like any other, so it ends up in the
      right value of the second comparison. */
  lemma ConjunctionWithTrailingEof(id: Token, eq1: Token, one: Token, and: Token, age: Token, eq2: Token, twenty: Token, eof: Token)
    requires id.kind == IDENT && eq1.kind == EQUAL && one.kind == INT && and.kind == AND
    requires age.kind == IDENT && eq2.kind == EQUAL && twenty.kind == INT && eof.kind == EOF
    ensures ParseSearchCondition(TokensReader([id, eq1, one, and, age, eq2, twenty, eof])).0
      == BooleanTerm(and, ValueExpr(eq1, Raw([id]), Raw([one])), ValueExpr(eq2, Raw([age]), Raw([twenty, eof])))
  {
    var e := BooleanTerm(and, ValueExpr(eq1, Raw([id]), Raw([one])), ValueExpr(eq2, Raw([age]), Raw([twenty, eof])));
    ComparisonShape(id, eq1, one);
    ComparisonWithEofShape(age, eq2, twenty, eof);
    assert Flatten(e) == [id, eq1, one, and, age, eq2, twenty, eof];
    ConditionChainIsParse(e);
  }

  /** Keeping from two tokens. */
  lemma KeepPair(x: Token, y: Token, kinds: set<TokenType>)
    ensures Keep([x, y], kinds) == Keep([x], kinds) + Keep([y], kinds)
  {
    assert [x, y] == [x] + [y];
    KeepAppend([x], [y], kinds);
  }

  /** Keeping from three tokens. */
  lemma KeepTriple(x: Token, y: Token, z: Token, kinds: set<TokenType>)
    ensures Keep([x, y, z], kinds) == Keep([x], kinds) + Keep([y], kinds) + Keep([z], kinds)
  {
    assert [x, y, z] == [x] + [y, z];
    KeepAppend([x], [y, z], kinds);
    KeepPair(y, z, kinds);
  }

  /** The tables of `users GROUP BY group_id` are both identifiers. */
  lemma GroupByTables(u: Token, g: Token, i: Token)
    requires u.kind == IDENT && g.kind == GROUPBY && i.kind == IDENT
    ensures Keep([u, g, i], {IDENT}) == [u, i]
  {
    KeepTriple(u, g, i, {IDENT});
    KeepOne(u, {IDENT});
    KeepOne(g, {IDENT});
    KeepOne(i, {IDENT});
  }

  /** `FROM users GROUP BY group_id`: parser.go has no GROUP BY, so GROUPBY
      is dropped and group_id becomes a second table. */
  lemma GroupByIdentifierIsTable(f: Token, u: Token, g: Token, i: Token)
    requires f.kind == FROM && u.kind == IDENT && g.kind == GROUPBY && i.kind == IDENT
    ensures ParseFromClause(TokensReader([f, u, g, i])) == (Success(FromClause([u, i])), TokensReader([]))
  {
    var ts := [f, u, g, i];
    var after := [u, g, i];
    assert ts[1..] == after;
    assert FirstOf(after, TableStop) == 3 by {
      FirstOfUnique(after, TableStop, 3);
    }
    ParseFromClauseTables(ts);
    assert after[..3] == after && after[3..] == [];
    GroupByTables(u, g, i);
  }

  /** `( ( a ) )` loses one pair per call, so stripping twice differs from
      stripping once: removeRedundantParen is not idempotent. */
  lemma RemoveRedundantParenTwice(l1: Token, l2: Token, a: Token, r1: Token, r2: Token)
    requires l1.kind == LPAREN && l2.kind == LPAREN && a.kind == IDENT && r1.kind == RPAREN && r2.kind == RPAREN
    ensures RemoveRedundantParen([l1, l2, a, r1, r2]) == [l2, a, r1]
    ensures RemoveRedundantParen(RemoveRedundantParen([l1, l2, a, r1, r2])) == [a]
    ensures RemoveRedundantParen(RemoveRedundantParen([l1, l2, a, r1, r2])) != RemoveRedundantParen([l1, l2, a, r1, r2])
  {
    assert [l1, l2, a, r1, r2][1..4] == [l2, a, r1];
    assert [l2, a, r1][1..2] == [a];
  }

  /** `( a ) = ( b )` starts with LPAREN and ends with RPAREN, so the outer
      two go although they do not match each other. */
  lemma RemoveRedundantParenUnmatched(l1: Token, a: Token, r1: Token, eq: Token, l2: Token, b: Token, r2: Token)
    requires l1.kind == LPAREN && r1.kind == RPAREN && l2.kind == LPAREN && r2.kind == RPAREN
    ensures RemoveRedundantParen([l1, a, r1, eq, l2, b, r2]) == [a, r1, eq, l2, b]
  {
    assert [l1, a, r1, eq, l2, b, r2][1..6] == [a, r1, eq, l2, b];
  }

  /** The groups of `col DESC , rank`. */
  lemma OrderGroups(c: Token, d: Token, comma: Token, r: Token)
    requires c.kind == IDENT && d.kind == DESC && comma.kind == COMMA && r.kind == IDENT
    ensures SplitOn([c, d, comma, r], COMMA) == [[c, d], [r]]
  {
    var ts := [c, d, comma, r];
    FirstOfUnique(ts, {COMMA}, 2);
    FirstOfUnique([r], {COMMA}, 1);
    assert ts[..2] == [c, d] && ts[3..] == [r];
  }

  /** `ORDER BY col DESC , rank`: one specification per group, the second
      ordered by the zero token because its group has one token. */
  lemma OrderByTwoKeys(ob: Token, c: Token, d: Token, comma: Token, r: Token)
    requires ob.kind == ORDERBY && c.kind == IDENT && d.kind == DESC && comma.kind == COMMA && r.kind == IDENT
    ensures ParseOrderByClause(TokensReader([ob, c, d, comma, r]))
      == (Success([SortSpecification(c, d), SortSpecification(r, ZeroToken)]), TokensReader([]))
  {
    var ts := [ob, c, d, comma, r];
    assert ts[1..] == [c, d, comma, r];
    OrderGroups(c, d, comma, r);
    ParseOrderByClauseGroups(ts);
    assert [[c, d], [r]] == [[c, d]] + [[r]] && [[r]] == [[r]] + [];
    SpecsOfCons([c, d], [[r]]);
    SpecsOfCons([r], []);
    var last := SortSpecification(r, ZeroToken);
    assert ParseSortSpecification([r]).value == last;
    assert [last] + [] == [last];
    assert SpecsOf([[r]]) == Success([last]);
    var first := SortSpecification(c, d);
    assert ParseSortSpecification([c, d]).value == first;
    assert [first] + [last] == [first, last];
    assert SpecsOf([[c, d], [r]]) == After([first], SpecsOf([[r]]));
  }

  /** `ORDER BY , rank`: the empty group before the comma is the
      index-out-of-range failure. */
  lemma OrderByEmptyGroup(ob: Token, comma: Token, r: Token)
    requires ob.kind == ORDERBY && comma.kind == COMMA && r.kind == IDENT
    ensures ParseOrderByClause(TokensReader([ob, comma, r])).0 == Failure(IndexOutOfRange)
  {
    var ts := [ob, comma, r];
    assert ts[1..] == [comma, r];
    ParseOrderByClauseGroups(ts);
    SplitOnLeading([comma, r], COMMA);
    SpecsOfCons([], SplitOn([r], COMMA));
  }

  /** The groups of `col DESC , rank EOF`. */
  lemma OrderGroupsWithEof(c: Token, d: Token, comma: Token, r: Token, eof: Token)
    requires c.kind == IDENT && d.kind == DESC && comma.kind == COMMA && r.kind == IDENT && eof.kind == EOF
    ensures SplitOn([c, d, comma, r, eof], COMMA) == [[c, d], [r, eof]]
  {
    var ts := [c, d, comma, r, eof];
    FirstOfUnique(ts, {COMMA}, 2);
    FirstOfUnique([r, eof], {COMMA}, 2);
    assert ts[..2] == [c, d] && ts[3..] == [r, eof];
  }

  /** The token array of the ORDER BY query in parser_test.go ends in an EOF
      token, and the reader hands it out like any other: it becomes the order
      of the last specification. */
  lemma OrderByTrailingEof(ob: Token, c: Token, d: Token, comma: Token, r: Token, eof: Token)
    requires ob.kind == ORDERBY && c.kind == IDENT && d.kind == DESC && comma.kind == COMMA
    requires r.kind == IDENT && eof.kind == EOF
    ensures ParseOrderByClause(TokensReader([ob, c, d, comma, r, eof]))
      == (Success([SortSpecification(c, d), SortSpecification(r, eof)]), TokensReader([]))
  {
    var ts := [ob, c, d, comma, r, eof];
    assert ts[1..] == [c, d, comma, r, eof];
    OrderGroupsWithEof(c, d, comma, r, eof);
    ParseOrderByClauseGroups(ts);
    assert [[c, d], [r, eof]] == [[c, d]] + [[r, eof]] && [[r, eof]] == [[r, eof]] + [];
    SpecsOfCons([c, d], [[r, eof]]);
    SpecsOfCons([r, eof], []);
    var last := SortSpecification(r, eof);
    assert ParseSortSpecification([r, eof]).value == last;
    assert [last] + [] == [last];
    assert SpecsOf([[r, eof]]) == Success([last]);
    var first := SortSpecification(c, d);
    assert ParseSortSpecification([c, d]).value == first;
    assert [first] + [last] == [first, last];
    assert SpecsOf([[c, d], [r, eof]]) == After([first], SpecsOf([[r, eof]]));
  }
}
