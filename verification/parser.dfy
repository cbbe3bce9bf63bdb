/** The recursive-descent SELECT parser of parser.go. Each parsing function
    takes the token reader and returns what it parsed together with the reader
    it leaves behind; nested parses run on fresh readers, as in Go. The
    slice-backed reader only ever fails with io.EOF, so the branches that
    forward other read errors are not written out. */
module Parser {
  import opened Outcomes
  import opened Const
  import opened Reader

  /** A WHERE condition: Go's `Expr` interface, which here holds a
      *BooleanTerm, a *ValueExpr or a bare `Tokens` slice. */
  datatype Expr =
    | BooleanTerm(boolean: Token, left: Expr, right: Expr)
    | ValueExpr(operator: Token, leftValue: Expr, rightValue: Expr)
    | Raw(tokens: seq<Token>)

  datatype SortSpecification = SortSpecification(key: Token, order: Token)

  datatype FromClause = FromClause(table: seq<Token>)

  /** `None` is the nil `Cond` of a query without WHERE. */
  datatype WhereClause = WhereClause(cond: Option<Expr>)

  /** The GROUP BY and HAVING fields of the Go struct are never filled and are
      not modelled. */
  datatype TableExpression = TableExpression(from: FromClause, where: WhereClause)

  datatype Select = Select(selectList: seq<Token>, table: TableExpression, orderBy: seq<SortSpecification>)

  /** Go's zero `Token`: kind ILLEGAL, every other field zero. */
  const ZeroToken: Token := Token(ILLEGAL, Position(0, 0, 0), "", 0)

  /** Go's zero `TableExpression`. */
  const ZeroTable: TableExpression := TableExpression(FromClause([]), WhereClause(None))

  /** The query must start with SELECT; the SELECT token is left for the
      select list, which skips it. */
  function Parse(tr: TokensReader): Result<Select> {
    match Peek(tr, 1)
    case Failure(_) => Failure(InvalidQuery)
    case Success(t) =>
      if t[0].kind == SELECT then ParseSelect(tr).0 else Failure(InvalidQuery)
  }

  /** Select list, then table expression, then ORDER BY. io.EOF from a part
      is not an error: the part is left empty (Go's nil) or the query ends. */
  function ParseSelect(tr: TokensReader): (Result<Select>, TokensReader) {
    var (list, tr1) := ParseSelectList(tr);
    match list
    case Failure(e) =>
      if e != EndOfFile then (Failure(e), tr1) else ParseSelectRest([], tr1)
    case Success(selectList) => ParseSelectRest(selectList, tr1)
  }

  function ParseSelectRest(selectList: seq<Token>, tr: TokensReader): (Result<Select>, TokensReader) {
    var (table, tr1) := ParseTableExpression(tr);
    match table
    case Failure(e) =>
      if e != EndOfFile then (Failure(e), tr1)
      else (Success(Select(selectList, ZeroTable, [])), tr1)
    case Success(te) =>
      var (orderBy, tr2) := ParseOrderByClause(tr1);
      match orderBy
      case Failure(e) =>
        if e != EndOfFile then (Failure(e), tr2)
        else (Success(Select(selectList, te, [])), tr2)
      case Success(clause) => (Success(Select(selectList, te, clause)), tr2)
  }

  // ---------------------------------------------------------------------------
  // Select list

  function ParseSelectList(tr: TokensReader): (Result<seq<Token>>, TokensReader) {
    SelectListLoop(tr, [])
  }

  /** Drops tokens up to FROM, keeping the asterisks and identifiers; running
      out of tokens first is io.EOF, and what was gathered is thrown away. */
  function SelectListLoop(tr: TokensReader, res: seq<Token>): (Result<seq<Token>>, TokensReader)
    decreases |tr.tokens|
  {
    match Peek(tr, 1)
    case Failure(e) => (Failure(e), tr)
    case Success(t) =>
      if t[0].kind == FROM then (Success(res), tr)
      else
        var res' := if t[0].kind == ASTERISK || t[0].kind == IDENT then res + [t[0]] else res;
        SelectListLoop(Discard(tr, 1), res')
  }

  // ---------------------------------------------------------------------------
  // Table expression

  function ParseTableExpression(tr: TokensReader): (Result<TableExpression>, TokensReader) {
    var (from, tr1) := ParseFromClause(tr);
    match from
    case Failure(e) => (Failure(e), tr1)
    case Success(f) =>
      var noWhere := (Success(TableExpression(f, WhereClause(None))), tr1);
      match Peek(tr1, 1)
      case Failure(_) => noWhere
      case Success(t) =>
        if t[0].kind != WHERE then noWhere
        else
          var (where, tr2) := ParseWhereClause(tr1);
          match where
          case Failure(e) => (Failure(e), tr2)
          case Success(w) => (Success(TableExpression(f, w)), tr2)
  }

  function ParseFromClause(tr: TokensReader): (Result<FromClause>, TokensReader) {
    match Peek(tr, 1)
    case Failure(_) => (Failure(InvalidQuery), tr)
    case Success(t) =>
      if t[0].kind != FROM then (Failure(InvalidQuery), tr)
      else
        var (tables, tr1) := TableListLoop(Discard(tr, 1), []);
        (Success(FromClause(tables)), tr1)
  }

  /** Consumes tokens up to WHERE, ORDERBY or the end, keeping the
      identifiers. */
  function TableListLoop(tr: TokensReader, tableList: seq<Token>): (seq<Token>, TokensReader)
    decreases |tr.tokens|
  {
    match Peek(tr, 1)
    case Failure(_) => (tableList, tr)
    case Success(t) =>
      if t[0].kind == WHERE || t[0].kind == ORDERBY then (tableList, tr)
      else
        var tableList' := if t[0].kind == IDENT then tableList + [t[0]] else tableList;
        TableListLoop(Discard(tr, 1), tableList')
  }

  function ParseWhereClause(tr: TokensReader): (Result<WhereClause>, TokensReader) {
    match Peek(tr, 1)
    case Failure(_) => (Failure(InvalidQuery), tr)
    case Success(t) =>
      if t[0].kind != WHERE then (Failure(InvalidQuery), tr)
      else
        var (cond, tr1) := ParseSearchCondition(Discard(tr, 1));
        (Success(WhereClause(Some(cond))), tr1)
  }

  // ---------------------------------------------------------------------------
  // Search conditions

  predicate IsConnective(k: TokenType) { k == AND || k == OR }

  predicate IsComparison(k: TokenType) { k == EQUAL || k == LSS || k == GTR }

  /** How a token moves the parenthesis depth. */
  function Delta(k: TokenType): int {
    if k == LPAREN then 1 else if k == RPAREN then -1 else 0
  }

  /** Strips one leading LPAREN and one trailing RPAREN from three or more
      tokens, without checking that the two match each other. */
  function RemoveRedundantParen(ts: seq<Token>): (r: seq<Token>)
    ensures |r| <= |ts|
  {
    if |ts| < 3 then ts
    else if ts[0].kind == LPAREN && ts[|ts| - 1].kind == RPAREN then ts[1..|ts| - 1]
    else ts
  }

  function ParseSearchCondition(tr: TokensReader): (Expr, TokensReader)
    decreases |tr.tokens|, |tr.tokens| + 1
  {
    SearchLoop(tr, 0, [])
  }

  /** Gathers tokens while tracking the parenthesis depth; a parenthesis that
      takes the depth below zero is dropped. At the first AND/OR at depth zero
      the gathered tokens become the left operand and the tokens up to ORDERBY,
      GROUPBY or the end the right one, each stripped of one enclosing pair and
      parsed on its own. Without such a connective everything is gathered and
      handed to `ParseBooleanValueExpression`. */
  function SearchLoop(tr: TokensReader, depth: int, left: seq<Token>): (Expr, TokensReader)
    decreases |tr.tokens| + |left|, |tr.tokens|
  {
    match Peek(tr, 1)
    case Failure(_) => (ParseBooleanValueExpression(NewTokensReader(left)).0, tr)
    case Success(t) =>
      var tok := t[0];
      var rest := Discard(tr, 1);
      var depth' := depth + Delta(tok.kind);
      if (tok.kind == LPAREN || tok.kind == RPAREN) && depth' < 0 then
        SearchLoop(rest, depth', left)
      else if IsConnective(tok.kind) && depth == 0 then
        Connect(tok, left, rest)
      else
        SearchLoop(rest, depth', left + [tok])
  }

  /** The AND/OR case of the search loop: `left` holds the tokens gathered
      before the connective `tok`, and `tr` is the reader just past it. */
  function Connect(tok: Token, left: seq<Token>, tr: TokensReader): (Expr, TokensReader)
    decreases |tr.tokens| + |left| + 1, 0
  {
    var l := ParseSearchCondition(NewTokensReader(RemoveRedundantParen(left))).0;
    var (least, tr1) := SkipLoop(tr, []);
    var r := ParseSearchCondition(NewTokensReader(RemoveRedundantParen(least))).0;
    (BooleanTerm(tok, l, r), tr1)
  }

  /** Consumes tokens up to ORDERBY, GROUPBY or the end, gathering them. */
  function SkipLoop(tr: TokensReader, least: seq<Token>): (r: (seq<Token>, TokensReader))
    decreases |tr.tokens|
    ensures |r.0| <= |least| + |tr.tokens|
  {
    match Peek(tr, 1)
    case Failure(_) => (least, tr)
    case Success(t) =>
      if t[0].kind == ORDERBY || t[0].kind == GROUPBY then (least, tr)
      else SkipLoop(Discard(tr, 1), least + [t[0]])
  }

  function ParseBooleanValueExpression(tr: TokensReader): (Expr, TokensReader)
    decreases |tr.tokens|, |tr.tokens| + 1
  {
    ValueLoop(tr, [])
  }

  /** Gathers tokens up to the first `=`, `<` or `>`; the gathered tokens are
      parsed on their own as the left value and the rest of the reader as the
      right value. Without an operator the gathered tokens are the result. */
  function ValueLoop(tr: TokensReader, left: seq<Token>): (Expr, TokensReader)
    decreases |tr.tokens| + |left|, |tr.tokens|
  {
    match Peek(tr, 1)
    case Failure(_) => (Raw(left), tr)
    case Success(t) =>
      if IsComparison(t[0].kind) then Compare(t[0], left, Discard(tr, 1))
      else ValueLoop(Discard(tr, 1), left + [t[0]])
  }

  /** The operator case of the value loop: `left` holds the tokens gathered
      before the operator `tok`, and `tr` is the reader just past it. */
  function Compare(tok: Token, left: seq<Token>, tr: TokensReader): (Expr, TokensReader)
    decreases |tr.tokens| + |left| + 1, 0
  {
    var l := ParseBooleanValueExpression(NewTokensReader(left)).0;
    var (r, tr1) := ParseBooleanValueExpression(tr);
    (ValueExpr(tok, l, r), tr1)
  }

  // ---------------------------------------------------------------------------
  // ORDER BY

  function ParseOrderByClause(tr: TokensReader): (Result<seq<SortSpecification>>, TokensReader) {
    match Peek(tr, 1)
    case Failure(_) => (Success([]), tr)
    case Success(t) =>
      if t[0].kind != ORDERBY then (Success([]), tr)
      else OrderByLoop(Discard(tr, 1), [], [])
  }

  /** Consumes every remaining token, closing a sort specification at each
      comma and at the end. */
  function OrderByLoop(tr: TokensReader, res: seq<SortSpecification>, left: seq<Token>)
    : (Result<seq<SortSpecification>>, TokensReader)
    decreases |tr.tokens|
  {
    match Peek(tr, 1)
    case Failure(_) =>
      (match ParseSortSpecification(left)
       case Failure(e) => (Failure(e), tr)
       case Success(s) => (Success(res + [s]), tr))
    case Success(t) =>
      var rest := Discard(tr, 1);
      if t[0].kind == COMMA then
        match ParseSortSpecification(left)
        case Failure(e) => (Failure(e), rest)
        case Success(s) => OrderByLoop(rest, res + [s], [])
      else
        OrderByLoop(rest, res, left + [t[0]])
  }

  /** The first token is the key and the second, if any, the order; further
      tokens are ignored. Indexing an empty group is Go's index-out-of-range
      panic. */
  function ParseSortSpecification(t: seq<Token>): (r: Result<SortSpecification>)
    ensures r.Success? <==> |t| > 0
    ensures r.Success? ==> r.value.key == t[0]
    ensures r.Success? ==> r.value.order == if |t| > 1 then t[1] else ZeroToken
    ensures r.Failure? ==> r.error == IndexOutOfRange
  {
    if |t| == 0 then Failure(IndexOutOfRange)
    else Success(SortSpecification(t[0], if |t| > 1 then t[1] else ZeroToken))
  }
}
