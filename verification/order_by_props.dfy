/** What parseOrderByClause computes: the tokens after ORDER BY, split at the
    commas, one sort specification per group. */
module OrderByProps {
  import opened Outcomes
  import opened Const
  import opened Reader
  import opened TokenSeqs
  import opened Parser

  /** The sort specifications of the groups, in order; the first empty group
      is the index-out-of-range failure. */
  function SpecsOf(groups: seq<seq<Token>>): Result<seq<SortSpecification>>
    decreases |groups|
  {
    if |groups| == 0 then Success([])
    else
      match ParseSortSpecification(groups[0])
      case Failure(e) => Failure(e)
      case Success(s) =>
        match SpecsOf(groups[1..])
        case Failure(e) => Failure(e)
        case Success(v) => Success([s] + v)
  }

  /** `r` with `res` put in front of its specifications. */
  function After(res: seq<SortSpecification>, r: Result<seq<SortSpecification>>): Result<seq<SortSpecification>> {
    match r
    case Failure(e) => Failure(e)
    case Success(v) => Success(res + v)
  }

  /** The specifications exist exactly when no group is empty; then there is
      one per group, keyed by the group's first token and ordered by its
      second, or by the zero token when the group has one token. */
  lemma {:induction false} SpecsOfGroups(groups: seq<seq<Token>>)
    decreases |groups|
    ensures var r := SpecsOf(groups);
      && (r.Success? <==> forall g :: 0 <= g < |groups| ==> |groups[g]| > 0)
      && (r.Failure? ==> r.error == IndexOutOfRange)
      && (r.Success? ==> |r.value| == |groups|)
      && (r.Success? ==> forall g :: 0 <= g < |groups| ==> r.value[g] == ParseSortSpecification(groups[g]).value)
  {
    if |groups| > 0 {
      SpecsOfGroups(groups[1..]);
      var r := SpecsOf(groups);
      if r.Success? {
        forall g | 0 <= g < |groups| ensures r.value[g] == ParseSortSpecification(groups[g]).value {
          if g > 0 {
            assert groups[1..][g - 1] == groups[g];
          }
        }
      }
      if ParseSortSpecification(groups[0]).Success? && SpecsOf(groups[1..]).Failure? {
        var g :| 0 <= g < |groups[1..]| && |groups[1..][g]| == 0;
        assert groups[g + 1] == groups[1..][g];
      }
    }
  }

  /** One turn of the order-by loop over a token other than a comma. */
  lemma OrderByLoopStep(ts: seq<Token>, res: seq<SortSpecification>, left: seq<Token>)
    requires |ts| > 0 && ts[0].kind != COMMA
    ensures OrderByLoop(TokensReader(ts), res, left) == OrderByLoop(TokensReader(ts[1..]), res, left + [ts[0]])
  {
    assert Peek(TokensReader(ts), 1).value[0] == ts[0];
  }

  /** One turn of the order-by loop over a comma. */
  lemma OrderByLoopComma(ts: seq<Token>, res: seq<SortSpecification>, left: seq<Token>)
    requires |ts| > 0 && ts[0].kind == COMMA
    ensures OrderByLoop(TokensReader(ts), res, left)
      == if |left| == 0 then (Failure(IndexOutOfRange), TokensReader(ts[1..]))
         else OrderByLoop(TokensReader(ts[1..]), res + [ParseSortSpecification(left).value], [])
  {
    assert Peek(TokensReader(ts), 1).value[0] == ts[0];
  }

  /** Past a token other than the separator, the first group grows by that
      token and the others stay. */
  lemma SplitOnTail(ts: seq<Token>, sep: TokenType)
    requires |ts| > 0 && ts[0].kind != sep
    ensures var tail := SplitOn(ts[1..], sep);
      SplitOn(ts, sep) == [[ts[0]] + tail[0]] + tail[1..]
  {
    FirstOfTail(ts, {sep});
    if FirstOf(ts, {sep}) == |ts| {
      SplitOnTailWhole(ts, sep);
    } else {
      SplitOnTailAt(ts, sep, FirstOf(ts, {sep}));
    }
  }

  /** `SplitOnTail` when there is no separator: one group either way. */
  lemma SplitOnTailWhole(ts: seq<Token>, sep: TokenType)
    requires |ts| > 0 && FirstOf(ts, {sep}) == |ts| == 1 + FirstOf(ts[1..], {sep})
    ensures var tail := SplitOn(ts[1..], sep);
      SplitOn(ts, sep) == [[ts[0]] + tail[0]] + tail[1..]
  {
    var tail := ts[1..];
    assert SplitOn(tail, sep) == [tail];
    assert [ts[0]] + tail == ts;
  }

  /** `SplitOnTail` when the first separator sits at `k`: the first group of
      the tail is one token shorter and the rest are the same. */
  lemma SplitOnTailAt(ts: seq<Token>, sep: TokenType, k: nat)
    requires |ts| > 0 && k == FirstOf(ts, {sep}) == 1 + FirstOf(ts[1..], {sep}) && k < |ts|
    ensures var tail := SplitOn(ts[1..], sep);
      SplitOn(ts, sep) == [[ts[0]] + tail[0]] + tail[1..]
  {
    var tail := ts[1..];
    var more := SplitOn(ts[k + 1..], sep);
    assert tail[k - 1 + 1..] == ts[k + 1..];
    assert SplitOn(tail, sep) == [tail[..k - 1]] + more;
    assert [ts[0]] + tail[..k - 1] == ts[..k];
    assert SplitOn(ts, sep) == [ts[..k]] + more;
  }

  /** A leading separator closes an empty first group. */
  lemma SplitOnLeading(ts: seq<Token>, sep: TokenType)
    requires |ts| > 0 && ts[0].kind == sep
    ensures SplitOn(ts, sep) == [[]] + SplitOn(ts[1..], sep)
  {
    assert ts[..0] == [];
  }

  /** The specifications of a group followed by more groups. */
  lemma SpecsOfCons(g: seq<Token>, gs: seq<seq<Token>>)
    ensures |g| == 0 ==> SpecsOf([g] + gs) == Failure(IndexOutOfRange)
    ensures |g| > 0 ==> SpecsOf([g] + gs) == After([ParseSortSpecification(g).value], SpecsOf(gs))
  {
    assert ([g] + gs)[0] == g && ([g] + gs)[1..] == gs;
  }

  /** Putting two runs of specifications in front, one after the other. */
  lemma AfterAfter(a: seq<SortSpecification>, b: seq<SortSpecification>, r: Result<seq<SortSpecification>>)
    ensures After(a + b, r) == After(a, After(b, r))
  {
    if r.Success? {
      assert (a + b) + r.value == a + (b + r.value);
    }
  }

  /** The groups seen by the loop after a comma: the gathered tokens form a
      group of their own. */
  lemma CommaGroups(ts: seq<Token>, left: seq<Token>)
    requires |ts| > 0 && ts[0].kind == COMMA
    ensures var groups := SplitOn(ts, COMMA);
      [left + groups[0]] + groups[1..] == [left] + SplitOn(ts[1..], COMMA)
  {
    SplitOnLeading(ts, COMMA);
    NothingAfter(left);
  }

  /** The groups seen by the loop past a token other than a comma: the token
      joins the gathered ones. */
  lemma PlainGroups(ts: seq<Token>, left: seq<Token>)
    requires |ts| > 0 && ts[0].kind != COMMA
    ensures var groups := SplitOn(ts, COMMA);
      var tail := SplitOn(ts[1..], COMMA);
      [left + groups[0]] + groups[1..] == [(left + [ts[0]]) + tail[0]] + tail[1..]
  {
    var groups := SplitOn(ts, COMMA);
    var tail := SplitOn(ts[1..], COMMA);
    SplitOnTail(ts, COMMA);
    ConsParts([ts[0]] + tail[0], tail[1..]);
    Regroup(left, ts[0], tail[0]);
  }

  /** The head and the rest of a sequence built from them. */
  lemma ConsParts<T>(x: T, ys: seq<T>)
    ensures ([x] + ys)[0] == x && ([x] + ys)[1..] == ys
  {
  }

  /** A token between two stretches belongs to either. */
  lemma Regroup(a: seq<Token>, t: Token, b: seq<Token>)
    ensures (a + [t]) + b == a + ([t] + b)
  {
  }

  /** A fresh group continuing nothing. */
  lemma FreshGroups(gs: seq<seq<Token>>)
    requires |gs| > 0
    ensures [[] + gs[0]] + gs[1..] == gs
  {
    NothingBefore(gs[0]);
  }

  /** The order-by loop closes one specification per comma-separated group,
      the first group continuing the tokens `left` gathered so far, and on
      success drains the reader. */
  lemma {:induction false} OrderByLoopSpec(ts: seq<Token>, res: seq<SortSpecification>, left: seq<Token>)
    decreases |ts|
    ensures var groups := SplitOn(ts, COMMA);
      var r := OrderByLoop(TokensReader(ts), res, left);
      && r.0 == After(res, SpecsOf([left + groups[0]] + groups[1..]))
      && (r.0.Success? ==> r.1 == TokensReader([]))
  {
    if |ts| == 0 {
      assert SplitOn(ts, COMMA) == [[]];
      assert [left + []] + [] == [left] by {
        NothingAfter(left);
      }
      SpecsOfCons(left, []);
      if |left| > 0 {
        var s := ParseSortSpecification(left).value;
        assert [s] + [] == [s];
      }
    } else if ts[0].kind == COMMA {
      var tail := SplitOn(ts[1..], COMMA);
      OrderByLoopComma(ts, res, left);
      CommaGroups(ts, left);
      SpecsOfCons(left, tail);
      if |left| > 0 {
        var s := ParseSortSpecification(left).value;
        OrderByLoopSpec(ts[1..], res + [s], []);
        FreshGroups(tail);
        AfterAfter(res, [s], SpecsOf(tail));
      }
    } else {
      OrderByLoopStep(ts, res, left);
      PlainGroups(ts, left);
      OrderByLoopSpec(ts[1..], res, left + [ts[0]]);
    }
  }

  /** Without a leading ORDERBY there is no ORDER BY clause and nothing is
      read. */
  lemma ParseOrderByClauseAbsent(ts: seq<Token>)
    requires |ts| == 0 || ts[0].kind != ORDERBY
    ensures ParseOrderByClause(TokensReader(ts)) == (Success([]), TokensReader(ts))
  {
  }

  /** Nothing put in front changes nothing. */
  lemma AfterNothing(r: Result<seq<SortSpecification>>)
    ensures After([], r) == r
  {
    if r.Success? {
      assert [] + r.value == r.value;
    }
  }

  /** After ORDERBY the clause is the specifications of the comma-separated
      groups of all the remaining tokens, which it reads to the end. */
  lemma ParseOrderByClauseGroups(ts: seq<Token>)
    requires |ts| > 0 && ts[0].kind == ORDERBY
    ensures var r := ParseOrderByClause(TokensReader(ts));
      && r.0 == SpecsOf(SplitOn(ts[1..], COMMA))
      && (r.0.Success? ==> r.1 == TokensReader([]))
  {
    var groups := SplitOn(ts[1..], COMMA);
    assert Peek(TokensReader(ts), 1).value[0] == ts[0];
    OrderByLoopSpec(ts[1..], [], []);
    FreshGroups(groups);
    AfterNothing(SpecsOf(groups));
  }

  /** After ORDERBY the clause succeeds exactly when no comma-separated group
      is empty; then it holds one specification more than there are commas,
      each keyed by its group's first token and ordered by its second. */
  lemma ParseOrderByClauseSpecifications(ts: seq<Token>)
    requires |ts| > 0 && ts[0].kind == ORDERBY
    ensures var groups := SplitOn(ts[1..], COMMA);
      var r := ParseOrderByClause(TokensReader(ts)).0;
      && (r.Success? <==> forall g :: 0 <= g < |groups| ==> |groups[g]| > 0)
      && (r.Failure? ==> r.error == IndexOutOfRange)
      && (r.Success? ==> |r.value| == |groups| == Count(ts[1..], COMMA) + 1)
      && (r.Success? ==> forall g :: 0 <= g < |groups| ==>
            && r.value[g].key == groups[g][0]
            && r.value[g].order == (if |groups[g]| > 1 then groups[g][1] else ZeroToken))
  {
    var groups := SplitOn(ts[1..], COMMA);
    ParseOrderByClauseGroups(ts);
    SpecsOfGroups(groups);
    SplitOnCount(ts[1..], COMMA);
  }
}
