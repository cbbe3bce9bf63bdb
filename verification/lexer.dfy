/** The lexer: a byte-at-a-time scanner turning SQL text into tokens.

    The input is an in-memory sequence whose characters stand for the bytes the
    Go lexer reads through `bufio.Reader`; `Ctx` carries the whole input, how
    many of its bytes the reader has consumed, and the counters of `lexerCtx`,
    so every operation of the lexer is a pure transition from one context to
    the next. */
module Lexer {
  import opened Outcomes
  import opened Const

  /** The lexer context: the input and the reader's position in it (`pos`), the
      current line, the cursor where the current token started (`start`,
      `prevCur`) and the cursor itself (`cur`). The reader never passes the end
      of the input, while the cursor may: a lookahead near the end moves the
      cursor by the bytes it asked for, not by the bytes it got. */
  datatype LexerCtx = LexerCtx(input: seq<char>, pos: nat, line: int, start: int, cur: int, prevCur: int)

  /** Each character of `input` stands for one byte, so only characters up to
      U+00FF correspond to an input the Go lexer can read; other characters
      are outside the model. */
  type Ctx = c: LexerCtx | c.pos <= |c.input| witness LexerCtx([], 0, 1, 0, 0, 0)

  /** A fresh lexer: nothing read, line 1, cursor 0. */
  function NewLexer(input: seq<char>): Ctx {
    LexerCtx(input, 0, 1, 0, 0, 0)
  }

  // ---------------------------------------------------------------------------
  // Character classes

  predicate IsWhiteSpace(r: char) { r == ' ' }
  predicate IsLineBreak(r: char) { r == '\n' }
  predicate IsComma(r: char) { r == ',' }
  predicate IsPeriod(r: char) { r == '.' }
  predicate IsParen(r: char) { r == '(' || r == ')' }

  /** A byte `Scan` skips before a token. */
  predicate IsBlank(r: char) { IsWhiteSpace(r) || IsLineBreak(r) }

  /** A byte that ends a word without becoming part of it. A tab, a line break,
      `=`, `<`, `>` and `*` do not end a word. */
  predicate EndsWord(r: char) { IsWhiteSpace(r) || IsComma(r) || IsPeriod(r) || IsParen(r) }

  /** Upper-case letters among byte values: ASCII A-Z and Latin-1 U+00C0..U+00DE
      except the multiplication sign U+00D7. */
  predicate IsUpper(c: char) {
    ('A' <= c <= 'Z') || ('\U{C0}' <= c <= '\U{DE}' && c != '\U{D7}')
  }

  /** Unicode simple lower-case mapping, which for byte-valued runes moves each
      upper-case letter 32 code points up and leaves everything else alone. */
  function ToLower(c: char): (l: char)
    ensures !IsUpper(l)
    ensures IsUpper(c) ==> l as int == c as int + 32
    ensures !IsUpper(c) ==> l == c
  {
    if IsUpper(c) then (c as int + 32) as char else c
  }

  function LowerString(s: seq<char>): (l: seq<char>)
    ensures |l| == |s|
    ensures forall i :: 0 <= i < |s| ==> l[i] == ToLower(s[i])
  {
    seq(|s|, i requires 0 <= i < |s| => ToLower(s[i]))
  }

  /** The eight one-byte tokens of the punctuation switch of `Lexer.Scan`. */
  function Punctuation(c: char): Option<TokenType> {
    match c
    case ',' => Some(COMMA) case '.' => Some(PERIOD) case '*' => Some(ASTERISK)
    case '=' => Some(EQUAL) case '<' => Some(LSS) case '>' => Some(GTR)
    case '(' => Some(LPAREN) case ')' => Some(RPAREN)
    case _ => None
  }

  /** The single-word keywords of the switch of `scanStatement`, keyed by their
      lower-case spelling. `order`, `group` and `primary` start two-word
      keywords and are handled apart; `delete` and `drop` are not recognised. */
  function Keyword(w: string): Option<TokenType> {
    match w
    case "select" => Some(SELECT) case "insert" => Some(INSERT) case "update" => Some(UPDATE)
    case "create" => Some(CREATE) case "alter" => Some(ALTER) case "from" => Some(FROM)
    case "as" => Some(AS) case "where" => Some(WHERE) case "set" => Some(SET)
    case "into" => Some(INTO) case "desc" => Some(DESC) case "asc" => Some(ASC)
    case "having" => Some(HAVING) case "left" => Some(LEFT) case "right" => Some(RIGHT)
    case "inner" => Some(INNER) case "outer" => Some(OUTER) case "join" => Some(JOIN)
    case "on" => Some(ON) case "values" => Some(VALUES) case "database" => Some(DATABASE)
    case "table" => Some(TABLE) case "assertion" => Some(ASSERTION) case "check" => Some(CHECK)
    case "and" => Some(AND) case "or" => Some(OR) case "not" => Some(NOT)
    case "exist" => Some(EXIST) case "add" => Some(ADD) case "column" => Some(COLUMN)
    case "serial" => Some(SERIAL) case "references" => Some(REFERENCE) case "default" => Some(DEFAULT)
    case "varchar" => Some(VARCHAR) case "int" => Some(INTEGER) case "unique" => Some(UNIQUE)
    case "null" => Some(NULL)
    case _ => None
  }

  /** The words whose meaning depends on a fixed-length lookahead. */
  predicate IsLookaheadWord(w: string) {
    w == "order" || w == "group" || w == "primary"
  }

  // ---------------------------------------------------------------------------
  // Positions in the input, used by the contracts

  /** The number of line breaks among `s[i..j]`. */
  function LineBreaks(s: seq<char>, i: int, j: int): nat
    requires 0 <= i <= j <= |s|
    decreases j - i
  {
    if i == j then 0 else (if IsLineBreak(s[i]) then 1 else 0) + LineBreaks(s, i + 1, j)
  }

  lemma {:induction false} LineBreaksSplit(s: seq<char>, i: int, j: int, k: int)
    requires 0 <= i <= j <= k <= |s|
    ensures LineBreaks(s, i, j) + LineBreaks(s, j, k) == LineBreaks(s, i, k)
    decreases j - i
  {
    if i < j {
      LineBreaksSplit(s, i + 1, j, k);
    }
  }

  /** The first position at or after `i` that does not hold a space. */
  function SpacesEnd(s: seq<char>, i: nat): (j: nat)
    requires i <= |s|
    ensures i <= j <= |s|
    ensures forall k :: i <= k < j ==> IsWhiteSpace(s[k])
    ensures j < |s| ==> !IsWhiteSpace(s[j])
    decreases |s| - i
  {
    if i < |s| && IsWhiteSpace(s[i]) then SpacesEnd(s, i + 1) else i
  }

  /** The first position at or after `i` that holds neither a space nor a line break. */
  function BlanksEnd(s: seq<char>, i: nat): (j: nat)
    requires i <= |s|
    ensures i <= j <= |s|
    ensures forall k :: i <= k < j ==> IsBlank(s[k])
    ensures j < |s| ==> !IsBlank(s[j])
    decreases |s| - i
  {
    if i < |s| && IsBlank(s[i]) then BlanksEnd(s, i + 1) else i
  }

  /** The first position at or after `i` that holds a word-ending byte, or the end. */
  function WordStop(s: seq<char>, i: nat): (j: nat)
    requires i <= |s|
    ensures i <= j <= |s|
    ensures forall k :: i <= k < j ==> !EndsWord(s[k])
    ensures j < |s| ==> EndsWord(s[j])
    decreases |s| - i
  {
    if i < |s| && !EndsWord(s[i]) then WordStop(s, i + 1) else i
  }

  /** The end of the word whose first byte is at `i`: the first byte always
      belongs to the word, whatever it is. */
  function WordEnd(s: seq<char>, i: nat): (j: nat)
    requires i < |s|
    ensures i < j <= |s|
  {
    WordStop(s, i + 1)
  }

  /** `b` is a context reached from `a` by consuming input: same input, the
      reader no further back, and the cursor moved over every consumed byte,
      overshooting only when a lookahead ran past the end of the input. */
  predicate Moved(a: Ctx, b: Ctx) {
    && b.input == a.input
    && a.pos <= b.pos
    && b.cur >= a.cur + (b.pos - a.pos)
    && (b.pos < |b.input| ==> b.cur == a.cur + (b.pos - a.pos))
  }

  lemma MovedTrans(a: Ctx, b: Ctx, c: Ctx)
    requires Moved(a, b) && Moved(b, c)
    ensures Moved(a, c)
  {
  }

  // ---------------------------------------------------------------------------
  // Numerals (strconv.Atoi)

  predicate IsDigit(c: char) { '0' <= c <= '9' }

  predicate AllDigits(s: seq<char>) {
    forall i :: 0 <= i < |s| ==> IsDigit(s[i])
  }

  /** The value of a decimal digit string, most significant digit first. */
  function DigitsValue(s: seq<char>): nat
    requires AllDigits(s)
  {
    if |s| == 0 then 0 else 10 * DigitsValue(s[..|s| - 1]) + (s[|s| - 1] as int - '0' as int)
  }

  /** The strings `strconv.Atoi` accepts: an optional sign and at least one digit. */
  predicate IsNumeral(s: string) {
    || (|s| > 0 && AllDigits(s))
    || (|s| > 1 && (s[0] == '+' || s[0] == '-') && AllDigits(s[1..]))
  }

  /** `strconv.Atoi` on unbounded integers. */
  function Atoi(s: string): (r: Option<int>)
    ensures r.Some? <==> IsNumeral(s)
    ensures r.Some? && s[0] != '-' && s[0] != '+' ==> r.value == DigitsValue(s)
    ensures r.Some? && (s[0] == '-' || s[0] == '+') ==>
              r.value == (if s[0] == '-' then -(DigitsValue(s[1..]) as int) else DigitsValue(s[1..]))
  {
    if |s| > 0 && (s[0] == '+' || s[0] == '-') then
      var digits := s[1..];
      if |digits| == 0 || !AllDigits(digits) then None
      else
        var v: int := DigitsValue(digits);
        Some(if s[0] == '-' then -v else v)
    else if |s| == 0 || !AllDigits(s) then None
    else Some(DigitsValue(s))
  }

  // ---------------------------------------------------------------------------
  // lexerCtx

  /** The value a token carries: Go passes it as an `interface{}` that is an
      `int`, a `string` or nil. */
  datatype Payload = NoValue | IntValue(i: int) | StrValue(s: string)

  /** `lexerCtx.Position`. */
  function PositionOf(ctx: Ctx): Position {
    Position(ctx.line, ctx.prevCur, ctx.cur - ctx.start)
  }

  /** `lexerCtx.Token`: a token of the given kind at the current position. */
  function TokenOf(ctx: Ctx, kind: TokenType, value: Payload): Token {
    Token(kind, PositionOf(ctx),
          if value.StrValue? then value.s else "",
          if value.IntValue? then value.i else 0)
  }

  /** The fields a step leaves alone. */
  predicate SameMarks(a: Ctx, b: Ctx) {
    b.input == a.input && b.start == a.start && b.prevCur == a.prevCur
  }

  /** `lexerCtx.peek`: the next byte, if any, without consuming it; looking at a
      line break already counts it as a new line. */
  function Peek(ctx: Ctx): (r: (Option<char>, Ctx))
    ensures SameMarks(ctx, r.1) && r.1.pos == ctx.pos && r.1.cur == ctx.cur
    ensures ctx.pos == |ctx.input| ==> r.0 == None && r.1.line == ctx.line
    ensures ctx.pos < |ctx.input| ==> r.0 == Some(ctx.input[ctx.pos])
    ensures ctx.pos < |ctx.input| ==>
              r.1.line == ctx.line + (if IsLineBreak(ctx.input[ctx.pos]) then 1 else 0)
  {
    if ctx.pos == |ctx.input| then (None, ctx)
    else if IsLineBreak(ctx.input[ctx.pos]) then (Some(ctx.input[ctx.pos]), ctx.(line := ctx.line + 1))
    else (Some(ctx.input[ctx.pos]), ctx)
  }

  /** Moves the cursor `n` bytes on and consumes up to `n` bytes of input, as
      `bufio.Reader.Discard` does when fewer bytes remain. */
  function Advance(ctx: Ctx, n: nat): (r: Ctx)
    ensures SameMarks(ctx, r) && r.line == ctx.line
    ensures r.cur == ctx.cur + n
    ensures r.pos == (if ctx.pos + n <= |ctx.input| then ctx.pos + n else |ctx.input|)
    ensures Moved(ctx, r)
  {
    ctx.(cur := ctx.cur + n, pos := if ctx.pos + n <= |ctx.input| then ctx.pos + n else |ctx.input|)
  }

  /** `lexerCtx.discard`: consume one byte. */
  function Discard(ctx: Ctx): Ctx {
    Advance(ctx, 1)
  }

  /** `lexerCtx.skipWhiteSpace`: consume spaces; a line break stops it but is
      still counted, because it was peeked. */
  function SkipWhiteSpace(ctx: Ctx): (r: Ctx)
    decreases |ctx.input| - ctx.pos
    ensures var j := SpacesEnd(ctx.input, ctx.pos);
      && SameMarks(ctx, r)
      && r.pos == j
      && r.cur == ctx.cur + (j - ctx.pos)
      && r.line == ctx.line + (if j < |ctx.input| && IsLineBreak(ctx.input[j]) then 1 else 0)
  {
    var (b, c) := Peek(ctx);
    match b
    case None => c
    case Some(r) => if IsWhiteSpace(r) then SkipWhiteSpace(Discard(c)) else c
  }

  /** The loop at the top of `Lexer.Scan`: consume spaces and line breaks,
      counting every line break. */
  function SkipSeparators(ctx: Ctx): (r: Ctx)
    decreases |ctx.input| - ctx.pos
    ensures var j := BlanksEnd(ctx.input, ctx.pos);
      && SameMarks(ctx, r)
      && r.pos == j
      && r.cur == ctx.cur + (j - ctx.pos)
      && r.line == ctx.line + LineBreaks(ctx.input, ctx.pos, j)
  {
    var (b, c) := Peek(ctx);
    match b
    case None => c
    case Some(r) => if IsBlank(r) then SkipSeparators(Discard(c)) else c
  }

  /** The loop of `scanStatement`: the bytes up to the first word-ending byte or
      the end of input. Each peeked line break is counted. */
  function ReadWord(ctx: Ctx): (r: (seq<char>, Ctx))
    decreases |ctx.input| - ctx.pos
    ensures var j := WordStop(ctx.input, ctx.pos);
      && r.0 == ctx.input[ctx.pos..j]
      && SameMarks(ctx, r.1)
      && r.1.pos == j
      && r.1.cur == ctx.cur + (j - ctx.pos)
      && r.1.line == ctx.line + LineBreaks(ctx.input, ctx.pos, j)
  {
    var (b, c) := Peek(ctx);
    match b
    case None => ([], c)
    case Some(r) =>
      if EndsWord(r) then ([], c)
      else
        var (w, c') := ReadWord(Discard(c));
        assert [r] + w == ctx.input[ctx.pos..WordStop(ctx.input, ctx.pos)];
        ([r] + w, c')
  }

  // ---------------------------------------------------------------------------
  // Two-word keywords

  /** After the spaces from position `i` on, the next two bytes are exactly `by`. */
  predicate SpacedBy(s: seq<char>, i: nat)
    requires i <= |s|
  {
    var j := SpacesEnd(s, i); j + 2 <= |s| && s[j] == 'b' && s[j + 1] == 'y'
  }

  /** After the spaces from position `i` on, the next three bytes are exactly `key`. */
  predicate SpacedKey(s: seq<char>, i: nat)
    requires i <= |s|
  {
    var j := SpacesEnd(s, i); j + 3 <= |s| && s[j] == 'k' && s[j + 1] == 'e' && s[j + 2] == 'y'
  }

  /** The line count after the spaces from position `i` on: the byte that stops
      `skipWhiteSpace` was peeked, so a line break there is already counted. */
  function StopLine(s: seq<char>, i: nat): nat
    requires i <= |s|
  {
    var j := SpacesEnd(s, i); if j < |s| && IsLineBreak(s[j]) then 1 else 0
  }

  /** The `by` check once the spaces are skipped: the cursor always moves two
      bytes on, while the reader consumes two bytes or what is left of the
      input; the keyword is recognised only when those bytes are exactly `by`. */
  function ByAt(c: Ctx, kind: TokenType): (r: (TokenType, Ctx))
    ensures SameMarks(c, r.1) && r.1.line == c.line
    ensures r.1.cur == c.cur + 2
    ensures r.1.pos == (if c.pos + 2 <= |c.input| then c.pos + 2 else |c.input|)
    ensures r.0 == (if c.pos + 2 <= |c.input| && c.input[c.pos] == 'b' && c.input[c.pos + 1] == 'y'
                    then kind else ILLEGAL)
  {
    if |c.input| - c.pos < 2 then (ILLEGAL, Advance(c, 2))
    else (if c.input[c.pos] == 'b' && c.input[c.pos + 1] == 'y' then kind else ILLEGAL, Advance(c, 2))
  }

  /** After `order` or `group`: skip spaces, then move the cursor two bytes on
      and consume up to two bytes; the keyword is recognised only when those
      bytes are exactly `by`. */
  function LookaheadBy(ctx: Ctx, kind: TokenType): (r: (TokenType, Ctx))
    ensures var j := SpacesEnd(ctx.input, ctx.pos);
      && SameMarks(ctx, r.1)
      && r.1.cur == ctx.cur + (j - ctx.pos) + 2
      && r.1.pos == (if j + 2 <= |ctx.input| then j + 2 else |ctx.input|)
      && r.0 == (if SpacedBy(ctx.input, ctx.pos) then kind else ILLEGAL)
      && r.1.line == ctx.line + StopLine(ctx.input, ctx.pos)
    ensures Moved(ctx, r.1)
  {
    ByAt(SkipWhiteSpace(ctx), kind)
  }

  /** The `key` check once the spaces are skipped: `key` is consumed and gives
      PRIMARYKEY; fewer than three bytes are consumed as ILLEGAL (the cursor
      still moves three); any other three bytes give ILLEGAL and stay unread. */
  function KeyAt(c: Ctx): (r: (TokenType, Ctx))
    ensures SameMarks(c, r.1) && r.1.line == c.line
    ensures var n := |c.input|;
      && (c.pos + 3 > n ==> r.0 == ILLEGAL && r.1.pos == n && r.1.cur == c.cur + 3)
      && (c.pos + 3 <= n && c.input[c.pos] == 'k' && c.input[c.pos + 1] == 'e' && c.input[c.pos + 2] == 'y' ==>
            r.0 == PRIMARYKEY && r.1.pos == c.pos + 3 && r.1.cur == c.cur + 3)
      && (c.pos + 3 <= n && !(c.input[c.pos] == 'k' && c.input[c.pos + 1] == 'e' && c.input[c.pos + 2] == 'y') ==>
            r.0 == ILLEGAL && r.1.pos == c.pos && r.1.cur == c.cur)
  {
    if |c.input| - c.pos < 3 then (ILLEGAL, Advance(c, 3))
    else if c.input[c.pos] == 'k' && c.input[c.pos + 1] == 'e' && c.input[c.pos + 2] == 'y' then
      (PRIMARYKEY, Advance(c, 3))
    else (ILLEGAL, c)
  }

  /** After `primary`: skip spaces, then look at three bytes. `key` is consumed
      and gives PRIMARYKEY; fewer than three bytes are consumed as ILLEGAL (the
      cursor still moves three); any other three bytes give ILLEGAL and stay
      unread. */
  function LookaheadKey(ctx: Ctx): (r: (TokenType, Ctx))
    ensures var j := SpacesEnd(ctx.input, ctx.pos); var n := |ctx.input|;
      && SameMarks(ctx, r.1)
      && (j + 3 > n ==> r.0 == ILLEGAL && r.1.pos == n && r.1.cur == ctx.cur + (j - ctx.pos) + 3)
      && (SpacedKey(ctx.input, ctx.pos) ==>
            r.0 == PRIMARYKEY && r.1.pos == j + 3 && r.1.cur == ctx.cur + (j - ctx.pos) + 3)
      && (j + 3 <= n && !SpacedKey(ctx.input, ctx.pos) ==>
            r.0 == ILLEGAL && r.1.pos == j && r.1.cur == ctx.cur + (j - ctx.pos))
      && r.1.line == ctx.line + StopLine(ctx.input, ctx.pos)
    ensures Moved(ctx, r.1)
  {
    KeyAt(SkipWhiteSpace(ctx))
  }

  // ---------------------------------------------------------------------------
  // Words

  /** The outcome of `scanStatement`: a kind, its payload, the context after it. */
  datatype Lexeme = Lexeme(kind: TokenType, value: Payload, ctx: Ctx)

  /** The lower-cased word `scanStatement` classifies when `s` stands for the
      byte at the reader's position. */
  function StatementWord(ctx: Ctx, s: char): string
    requires ctx.pos < |ctx.input|
  {
    LowerString([s] + ctx.input[ctx.pos + 1..WordEnd(ctx.input, ctx.pos)])
  }

  /** The switch of `scanStatement` for the words that need no lookahead:
      a keyword, else a numeral, else an identifier holding the lower-cased word. */
  function ClassifyWord(state: string, c: Ctx): (r: Lexeme)
    requires !IsLookaheadWord(state)
    ensures r.ctx == c
    ensures r.kind != EOF
  {
    if Keyword(state).Some? then Lexeme(Keyword(state).value, NoValue, c)
    else
      match Atoi(state)
      case Some(i) => Lexeme(INT, IntValue(i), c)
      case None => Lexeme(IDENT, StrValue(state), c)
  }

  /** `scanStatement`: `s` is the already lower-cased byte at the reader's
      position. The whole word is lower-cased and classified; the cursor moves
      over at least the word, and tracks the bytes consumed exactly unless a
      lookahead ran past the end of the input. */
  function ScanStatement(ctx: Ctx, s: char): (r: Lexeme)
    requires ctx.pos < |ctx.input|
    ensures r.kind != EOF
    ensures SameMarks(ctx, r.ctx)
    ensures r.ctx.line >= ctx.line
    ensures r.ctx.pos >= WordEnd(ctx.input, ctx.pos)
    ensures Moved(ctx, r.ctx)
  {
    var (tail, c) := ReadWord(Discard(ctx));
    var state := LowerString([s] + tail);
    assert c.pos == WordEnd(ctx.input, ctx.pos) && Moved(ctx, c) && c.line >= ctx.line;
    if state == "order" || state == "group" then
      var (kind, c') := LookaheadBy(c, if state == "order" then ORDERBY else GROUPBY);
      Lexeme(kind, NoValue, c')
    else if state == "primary" then
      var (kind, c') := LookaheadKey(c);
      Lexeme(kind, NoValue, c')
    else
      ClassifyWord(state, c)
  }

  /** The context after the word whose first byte is at the reader's position:
      the reader and the cursor are just past the word, and every line break
      after the first byte has been counted. */
  predicate AfterWord(ctx: Ctx, c: Ctx)
    requires ctx.pos < |ctx.input|
  {
    var e := WordEnd(ctx.input, ctx.pos);
    && SameMarks(ctx, c)
    && c.pos == e
    && c.cur == ctx.cur + (e - ctx.pos)
    && c.line == ctx.line + LineBreaks(ctx.input, ctx.pos + 1, e)
  }

  /** A word that is neither a keyword nor a lookahead word: the cursor moves
      over exactly the word, and the token is INT when the word is a numeral,
      else IDENT carrying the lower-cased word. */
  lemma ScanStatementPlainWord(ctx: Ctx, s: char)
    requires ctx.pos < |ctx.input|
    requires var state := StatementWord(ctx, s); Keyword(state).None? && !IsLookaheadWord(state)
    ensures var state := StatementWord(ctx, s); var r := ScanStatement(ctx, s);
      && AfterWord(ctx, r.ctx)
      && (IsNumeral(state) ==> r.kind == INT && r.value == IntValue(Atoi(state).value))
      && (!IsNumeral(state) ==> r.kind == IDENT && r.value == StrValue(state))
  {
    ReadWordAfterFirst(ctx, s);
  }

  /** A keyword word: its table entry, no payload, the cursor over exactly the word. */
  lemma ScanStatementKeyword(ctx: Ctx, s: char)
    requires ctx.pos < |ctx.input|
    requires Keyword(StatementWord(ctx, s)).Some?
    ensures var r := ScanStatement(ctx, s);
      && r.kind == Keyword(StatementWord(ctx, s)).value && r.value == NoValue
      && AfterWord(ctx, r.ctx)
  {
    ReadWordAfterFirst(ctx, s);
    LookaheadWordsAreNotKeywords(StatementWord(ctx, s));
  }

  /** For the lookahead words, `scanStatement` runs the lookahead on the
      context after the word. */
  lemma ScanStatementLookahead(ctx: Ctx, s: char)
    requires ctx.pos < |ctx.input|
    requires IsLookaheadWord(StatementWord(ctx, s))
    ensures var c := ReadWord(Discard(ctx)).1; var w := StatementWord(ctx, s);
      && AfterWord(ctx, c)
      && (w == "order" ==> ScanStatement(ctx, s) == Lexeme(LookaheadBy(c, ORDERBY).0, NoValue, LookaheadBy(c, ORDERBY).1))
      && (w == "group" ==> ScanStatement(ctx, s) == Lexeme(LookaheadBy(c, GROUPBY).0, NoValue, LookaheadBy(c, GROUPBY).1))
      && (w == "primary" ==> ScanStatement(ctx, s) == Lexeme(LookaheadKey(c).0, NoValue, LookaheadKey(c).1))
  {
    ReadWordAfterFirst(ctx, s);
  }

  /** What `scanStatement` reads after the first byte: the rest of the word, so
      the string it classifies is the statement word, and the context after it. */
  lemma ReadWordAfterFirst(ctx: Ctx, s: char)
    requires ctx.pos < |ctx.input|
    ensures var (tail, c) := ReadWord(Discard(ctx));
      && LowerString([s] + tail) == StatementWord(ctx, s)
      && AfterWord(ctx, c)
  {
    var (tail, c) := ReadWord(Discard(ctx));
    assert tail == ctx.input[ctx.pos + 1..WordEnd(ctx.input, ctx.pos)];
  }

  /** The three lookahead words are not in the keyword table. */
  lemma LookaheadWordsAreNotKeywords(w: string)
    requires Keyword(w).Some?
    ensures !IsLookaheadWord(w)
  {
  }

  // ---------------------------------------------------------------------------
  // Lexer.Scan

  /** `Lexer.Scan`: skip blanks, then emit a punctuation token, a word token, or
      the EOF token with io.EOF when only blanks remain. Here the token's line
      is bounded from below only; the exact line for each kind of token is
      stated by the `LexerProps` lemmas (`ScanPunctuation`, `ScanKeyword`,
      `ScanPlainWord`, `ScanOrderGroup`, `ScanPrimary`). */
  function Scan(ctx: Ctx): (s: Step<Ctx>)
    ensures var b := BlanksEnd(ctx.input, ctx.pos);
      && (s.err.Some? <==> b == |ctx.input|)
      && (s.err.Some? ==>
            && s.err == Some(EndOfFile) && s.token == EofToken
            && s.state.pos == |ctx.input|
            && s.state.cur == ctx.cur + (|ctx.input| - ctx.pos)
            && s.state.line == ctx.line + LineBreaks(ctx.input, ctx.pos, |ctx.input|))
      && (s.err.None? ==>
            && s.token.kind != EOF
            && s.token.pos.offset == ctx.cur + (b - ctx.pos)
            && s.token.pos.column == s.state.cur - s.token.pos.offset
            && s.token.pos.column >= 1
            && s.token.pos.line == s.state.line
            && s.state.line >= ctx.line + LineBreaks(ctx.input, ctx.pos, b)
            && s.state.start == s.token.pos.offset && s.state.prevCur == s.token.pos.offset
            && s.state.pos > b)
    ensures Moved(ctx, s.state)
  {
    var c := SkipSeparators(ctx);
    if c.pos == |c.input| then
      Step(EofToken, Some(EndOfFile), c)
    else
      var c0 := c.(prevCur := c.cur, start := c.cur);
      assert Moved(ctx, c0) && c0.line == ctx.line + LineBreaks(ctx.input, ctx.pos, c0.pos);
      var r := ToLower(c0.input[c0.pos]);
      if Punctuation(r).Some? then
        var c1 := Discard(c0);
        Step(TokenOf(c1, Punctuation(r).value, NoValue), None, c1)
      else
        var lx := ScanStatement(c0, r);
        Step(TokenOf(lx.ctx, lx.kind, lx.value), None, lx.ctx)
  }
}
