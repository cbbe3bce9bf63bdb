/** The token vocabulary of the SQL front end: the closed set of token kinds,
    source positions and the token record itself. */
module Const {
  import opened Outcomes

  /** Every kind a token can have, in the order the Go enumeration declares them. */
  datatype TokenType =
    | ILLEGAL | EOF | WS
    | INT | IDENT
    | ASTERISK | COMMA | PERIOD | LPAREN | RPAREN | ADD | SUB | EQUAL | LSS | GTR
    | SELECT | INSERT | UPDATE | DELETE | CREATE | ALTER | DROP | FROM | AS | SET | INTO
    | WHERE | JOIN | LEFT | RIGHT | OUTER | INNER | ON | GROUPBY | ORDERBY | HAVING
    | VALUES | DESC | ASC | NULL | PRIMARYKEY | AND | OR | IF | NOT | EXIST | COLUMN | DEFAULT
    | DATABASE | TABLE | ASSERTION | INDEX | CHECK | REFERENCE | UNIQUE
    | INTEGER | SERIAL | VARCHAR

  /** Where a token sits in the input: its line, the number of bytes read before
      its first byte, and how far the cursor moved while it was scanned. */
  datatype Position = Position(line: int, offset: int, column: int)

  /** A token. Only one of `value` (identifiers) and `intValue` (numerals) is
      meaningful; the other keeps Go's zero value. */
  datatype Token = Token(kind: TokenType, pos: Position, value: string, intValue: int)

  /** The token both readers return together with io.EOF: kind EOF, every other
      field zero. */
  const EofToken: Token := Token(EOF, Position(0, 0, 0), "", 0)

  /** One call of a `Scan` method: the token, the error it came with (None is Go's
      nil) and the reader state after the call. */
  datatype Step<S> = Step(token: Token, err: Option<Error>, state: S)
}
