# go-sql-parser in Dafny

A model of the SQL front end of go-sql-parser. The model covers three parts:

- **The lexer** (`lexer.go`, with the token vocabulary of `const.go`). It turns query text into tokens. It skips spaces and line breaks, turns each of the eight punctuation bytes into a one-byte token, and reads every other run of bytes up to a space, comma, period or parenthesis as a word. A word is lower-cased and looked up in the keyword table. `order` and `group` look ahead for `by`, and `primary` looks ahead for `key`. After `order` or `group` the cursor always moves two bytes on, and the reader consumes those two bytes, or what is left at the end of the input. After `primary` the bytes `key` are consumed. When fewer than three bytes are left, the reader consumes them and the cursor moves three bytes on. Any other three bytes are left unread. Any other word becomes INT when `strconv.Atoi` accepts it, and IDENT otherwise.
- **The slice-backed token reader** (`token.go`): `Scan`, `Peek` and `Discard` over a buffer of tokens.
- **The recursive-descent parser** (`parser.go`). It assembles a `Select` from a token stream:
  - the asterisks and identifiers before FROM;
  - the identifiers after FROM up to WHERE or ORDER BY;
  - a WHERE condition split at the first AND/OR outside parentheses;
  - comparisons split at the first `=`, `<` or `>`;
  - an ORDER BY clause split at the commas.

Everything is a pure function over immutable values. A reader, or the lexer's context, is passed in, and the function returns the reader it leaves behind. Go's `(value, error)` pairs become a `Result` or a `Step`. The runtime panic of `parseSortSpecification` on an empty group becomes the `IndexOutOfRange` error.

The lexer's contracts describe every token in terms of the input bytes:

- its kind and payload;
- its line, offset and column;
- how much input it consumes.

The loop that collects the tokens of a text is proved to give tokens in text order, each starting at a non-blank byte.

The parser's loops are proved against reference definitions over plain token sequences, stated without any reader:

| definition | what it is |
|---|---|
| `FirstOf` | where the first token of some kinds sits |
| `Keep` | the tokens of some kinds, in order |
| `SplitOn` | the groups between separators |
| `Kept` | the depth-tracked gathering of the WHERE loop |
| `SplitAt` | where that loop meets the first connective at depth zero |

These give the shape of a whole query. They also give the exact condition tree for a plain condition, one without parentheses, ORDER BY or GROUP BY tokens. Such a tree is a right-nested chain of AND/OR over right-nested chains of comparisons. Flattening the tree gives the tokens back, and re-parsing the flattened tokens gives the tree back.

Where the code differs from the expectations written in its tests or from a natural reading of its design, the model follows the code:

- An IDENT token carries the lower-cased word.
- `delete` and `drop` are not keywords.
- The FROM clause stops only at WHERE and ORDER BY. There is no JOIN, GROUP BY or HAVING, so `GROUP BY x` in a FROM clause makes `x` a further table (`Scenarios.GroupByIdentifierIsTable`).
- `removeRedundantParen` strips one leading LPAREN and one trailing RPAREN whether or not they match. It is not idempotent (`Scenarios.RemoveRedundantParenTwice`).
- A WHERE condition without a top-level AND/OR reads every remaining token, including a later ORDER BY (`QueryProps.WhereAbsorbsOrderBy`).
- An EOF token in a token array is an ordinary token to the parser. In the arrays of `parser_test.go` it ends up in the last comparison value or the last sort specification (`Scenarios.ConjunctionWithTrailingEof`, `Scenarios.OrderByTrailingEof`).

Files:

| file | contents |
|---|---|
| `outcomes.dfy` | `Option`, `Result` and the error values |
| `const.dfy` | token kinds, positions, the token record |
| `lexer.dfy` | `Lexer`: the lexer context, its helpers, `Scan` |
| `lexer_props.dfy` | `LexerProps`: what `Scan` produces, by the kind of the first non-blank byte |
| `tokenize.dfy` | `Tokenizing`: scanning a whole text until io.EOF |
| `token_reader.dfy` | `Reader`: the slice-backed token reader |
| `token_seqs.dfy` | `TokenSeqs`: reference definitions over token sequences |
| `parser.dfy` | `Parser`: the syntax tree and every parsing function |
| `parser_props.dfy` | `ParserProps`: each parsing loop against the reference definitions |
| `search_props.dfy` | `SearchProps`: the WHERE condition |
| `order_by_props.dfy` | `OrderByProps`: the ORDER BY clause |
| `query_props.dfy` | `QueryProps`: whole queries |
| `scenarios.dfy` | `Scenarios`: concrete queries, several following `parser_test.go` |

## Model

| member | source | states |
|---|---|---|
| Lexer.ToLower | lexer.go:99 | the result is never an upper-case letter; an upper-case letter moves 32 code points up, anything else is unchanged |
| Lexer.LowerString | lexer.go:155 | the lower-cased word has the same length and lower-cases each byte in place |
| Lexer.NewLexer | lexer.go:70-72 | no contract of its own: the context on line 1 with nothing read, from which `Tokenizing.LexBlank`, `Tokenizing.LexTokensAt` and `Tokenizing.LexTokensOrdered` state what a whole text lexes to |
| Lexer.IsWhiteSpace | lexer.go:276-281 | no contract of its own: the space test, used by the contracts of `Lexer.SpacesEnd`, `Lexer.BlanksEnd` and `Lexer.WordStop` |
| Lexer.IsLineBreak | lexer.go:283-288 | no contract of its own: the line-break test, used by the line counts of `Lexer.Peek`, `Lexer.SkipSeparators` and `Lexer.ReadWord` |
| Lexer.IsComma | lexer.go:290-295 | no contract of its own: one of the word-ending bytes of `Lexer.WordStop` |
| Lexer.IsPeriod | lexer.go:297-302 | no contract of its own: one of the word-ending bytes of `Lexer.WordStop` |
| Lexer.IsParen | lexer.go:304-309 | no contract of its own: one of the word-ending bytes of `Lexer.WordStop` |
| Lexer.Punctuation | lexer.go:99-126 | no contract of its own: the punctuation table, whose tokens `LexerProps.ScanPunctuation` and `LexerProps.LowerPunctuation` describe |
| Lexer.Keyword | lexer.go:156-265 | no contract of its own: the keyword table, whose tokens `Lexer.ScanStatementKeyword` and `LexerProps.ScanKeyword` describe; `Lexer.LookaheadWordsAreNotKeywords` states that it holds no lookahead word |
| Lexer.SpacesEnd | lexer.go:56-68 | the index where a run of spaces ends: everything before it is a space, the byte at it is not |
| Lexer.BlanksEnd | lexer.go:76-97 | the index where a run of spaces and line breaks ends: everything before it is blank, the byte at it is not |
| Lexer.WordStop | lexer.go:139-153 | the index where a word ends: no byte before it ends a word, the byte at it does |
| Lexer.WordEnd | lexer.go:135-153 | a word started at an unread byte holds at least that byte |
| Lexer.Atoi | lexer.go:267-269 | a value exactly for an optionally signed non-empty digit string, namely the decimal value of the digits, negated after `-` |
| Lexer.Peek | lexer.go:40-49 | the next byte when one is left, and none at the end; looking at a line break already counts a new line; nothing is consumed |
| Lexer.Advance | lexer.go:51-54 | the cursor moves by the full count while the reader stops at the end of the input; the line is unchanged |
| Lexer.Discard | lexer.go:51-54 | no contract of its own: `Lexer.Advance` by one byte, whose contract it inherits |
| Lexer.SkipWhiteSpace | lexer.go:56-68 | consumes exactly the run of spaces; a line break right after it is counted but not consumed |
| Lexer.SkipSeparators | lexer.go:76-97 | consumes exactly the run of spaces and line breaks, counting every line break in it |
| Lexer.ReadWord | lexer.go:139-153 | returns exactly the bytes up to the word stop, consumes them, and counts the line breaks among them |
| Lexer.ByAt | lexer.go:179-198 | the cursor always moves two bytes on, while the reader consumes two bytes or what is left of the input; the two-word kind when those two bytes are exactly `by`, else ILLEGAL |
| Lexer.LookaheadBy | lexer.go:177-198 | skips spaces; then the cursor moves two bytes on whatever they are, and the reader consumes two bytes or what is left of the input; the two-word kind exactly when they are `by` |
| Lexer.KeyAt | lexer.go:201-211 | consumes everything when fewer than three bytes are left; PRIMARYKEY and three bytes consumed on `key`; nothing consumed on three other bytes |
| Lexer.LookaheadKey | lexer.go:199-211 | the same as `KeyAt`, after skipping spaces |
| Lexer.PositionOf | lexer.go:23-25 | no contract of its own: the line, the offset `prevCur` and the column `cur - start`, which `Lexer.Scan` and the `LexerProps.Scan*` lemmas state for every token |
| Lexer.TokenOf | lexer.go:27-38 | no contract of its own: a token at `PositionOf`, its string or integer payload filled in, as the `LexerProps.Scan*` lemmas state |
| Lexer.ClassifyWord | lexer.go:155-273 | classifying a word that needs no lookahead leaves the reader where it is and never gives EOF |
| Lexer.ScanStatement | lexer.go:135-274 | a word token is never EOF, consumes at least the whole word and moves the reader forward only |
| Lexer.ScanStatementPlainWord | lexer.go:266-270 | a word that is neither a keyword nor a lookahead word is INT with its `Atoi` value when it is a numeral, else IDENT carrying the lower-cased word |
| Lexer.ScanStatementKeyword | lexer.go:156-265 | a keyword word gives its table kind with no payload, and exactly the word is consumed |
| Lexer.ScanStatementLookahead | lexer.go:177-211 | `order`, `group` and `primary` give the lookahead's verdict, run just past the word |
| Lexer.ReadWordAfterFirst | lexer.go:135-155 | the first byte plus the rest of the word, lower-cased, is the word the keyword switch sees |
| Lexer.LookaheadWordsAreNotKeywords | lexer.go:156-265 | no entry of the keyword table is one of the three lookahead words |
| Lexer.Scan | lexer.go:74-133 | io.EOF with the EOF token exactly when only blanks are left; otherwise a non-EOF token whose offset is the first non-blank byte, whose column is how far the cursor moved, and whose line includes the skipped line breaks |
| LexerProps.ScanEndOfFile | lexer.go:76-83 | `Scan` answers io.EOF exactly when every unread byte is a space or a line break |
| LexerProps.LowerPunctuation | lexer.go:99-126 | lower-casing never turns a letter into punctuation, and leaves punctuation alone |
| LexerProps.ScanPunctuation | lexer.go:99-126 | a punctuation byte becomes its one-byte token with column 1, and exactly that byte is consumed |
| LexerProps.StatementWordIsLoweredWord | lexer.go:99 | lower-casing the first byte before the rest of the word gives the lower-cased word |
| LexerProps.WordIsLowered | lexer.go:135-155 | the word the keyword switch sees is the first word of the text, lower-cased |
| LexerProps.LinesOfWord | lexer.go:40-49 | after a word, the line counts the skipped blanks and the word's own line breaks |
| LexerProps.ScanKeyword | lexer.go:156-265 | a keyword token: its table kind, column equal to the word's length, exactly the word consumed |
| LexerProps.ScanPlainWord | lexer.go:266-270 | a plain word token: INT with the `Atoi` value or IDENT with the lower-cased word, column equal to the word's length |
| LexerProps.OrderGroupLexeme | lexer.go:177-198 | the lexeme of `order`/`group` in terms of the input bytes |
| LexerProps.ScanOrderGroup | lexer.go:177-198 | `order`/`group` consumes the spaces and then two more bytes, or what is left of the input; the column counts two bytes past the spaces either way; ORDERBY/GROUPBY exactly when those bytes are `by`, else ILLEGAL |
| LexerProps.PrimaryLexeme | lexer.go:199-211 | the lexeme of `primary` in terms of the input bytes |
| LexerProps.ScanPrimary | lexer.go:199-211 | `primary` gives PRIMARYKEY when the bytes after the spaces are `key`; otherwise ILLEGAL, consuming everything when fewer than three bytes remain and nothing after the spaces when three other bytes do; a line break right after the spaces is counted although it stays unread |
| Tokenizing.Collect | lexer_test.go:9-19 | scanning until io.EOF collects no tokens exactly when the first call answers io.EOF |
| Tokenizing.CollectLines | lexer.go:40-49 | the lines of collected tokens never decrease |
| Tokenizing.CollectOffsetsIncrease | lexer.go:23-24 | the offsets of collected tokens strictly increase |
| Tokenizing.ScanSteps | lexer.go:74-133 | `Scan` always moves forward, places each token on a line at or after the current one, and indexes its first byte with the offset |
| Tokenizing.LexBlank | lexer.go:76-80 | a text has no tokens exactly when it is all spaces and line breaks |
| Tokenizing.LexTokensAt | lexer.go:93-94 | every token of a text is a real token with a positive column, on line 1 or later, whose offset points at a non-blank byte of the text |
| Tokenizing.LexTokensOrdered | lexer.go:23-24 | the tokens of a text come in text order: offsets strictly increase and lines never decrease |
| Reader.NewTokensReader | token.go:11-13 | no contract of its own: the reader over a token slice, the starting point of every parsing lemma |
| Reader.Scan | token.go:15-23 | succeeds exactly when tokens are buffered, handing out the first one and keeping the rest; otherwise io.EOF with the EOF token |
| Reader.Peek | token.go:25-31 | the first `n` tokens exactly when at least `n` are buffered, otherwise io.EOF |
| Reader.Discard | token.go:33-37 | drops exactly the first `n` tokens when that many are buffered, otherwise nothing |
| Reader.DrainIsBuffer | token.go:15-23 | scanning until io.EOF hands out the buffer, in order |
| Reader.PeekThenDiscardIsScan | token.go:15-37 | a successful `Peek(1)` then `Discard(1)` sees the token `Scan` gives and leaves the same reader |
| Reader.PeekOneFailsAtEnd | token.go:15-31 | `Peek(1)` fails exactly when `Scan` answers io.EOF, with the same error |
| Reader.DiscardTwice | token.go:33-37 | when at least `m + n` tokens are buffered, discarding `m` and then `n` tokens is discarding `m + n` |
| TokenSeqs.KeepKinds | parser.go:221-226 | every kept token has one of the kinds asked for and is a token of the input, so a select list holds only asterisks and identifiers of the query |
| TokenSeqs.SplitOnCount | parser.go:173-192 | splitting at commas gives one group more than there are commas |
| TokenSeqs.SplitOnSeparatorFree | parser.go:184-191 | no group holds a comma |
| TokenSeqs.SplitOnJoin | parser.go:173-192 | putting the commas back between the groups gives the tokens back |
| Parser.Parse | parser.go:123-135 | no contract of its own: specified by `QueryProps.ParseInvalidQuery` (when the query is invalid), `QueryProps.ParseStartsWithSelect` and `QueryProps.ParseSelectParts` (what a SELECT query parses to) |
| Parser.ParseSelect | parser.go:137-162 | no contract of its own: specified by `QueryProps.ParseSelectParts` and `QueryProps.ParseWithoutFrom` |
| Parser.ParseSelectRest | parser.go:146-161 | no contract of its own: specified by `QueryProps.ParseSelectRestParts` and `QueryProps.ParseToTheEnd` |
| Parser.ParseSelectList | parser.go:205-230 | no contract of its own: specified by `QueryProps.ParseSelectListParts` |
| Parser.SelectListLoop | parser.go:208-227 | no contract of its own: specified by `ParserProps.SelectListLoopStep`, `ParserProps.SelectListLoopFound` and `ParserProps.SelectListLoopMissing` |
| Parser.ParseTableExpression | parser.go:232-250 | no contract of its own: specified by `QueryProps.ParseTableExpressionParts` |
| Parser.ParseFromClause | parser.go:252-282 | no contract of its own: specified by `QueryProps.ParseFromClauseRejects` and `QueryProps.ParseFromClauseTables` |
| Parser.TableListLoop | parser.go:259-281 | no contract of its own: specified by `ParserProps.TableListLoopStep` and `ParserProps.TableListLoopSpec` |
| Parser.ParseWhereClause | parser.go:284-297 | no contract of its own: specified by `QueryProps.ParseWhereClauseCondition` |
| Parser.RemoveRedundantParen | parser.go:406-416 | the result is never longer than the input; the full characterisation is `ParserProps.RemoveRedundantParenStrips` |
| Parser.ParseSearchCondition | parser.go:299-364 | no contract of its own: specified by `SearchProps.ParseSearchConditionWhole`, `SearchProps.ParseSearchConditionConnective` and `SearchProps.ParseSearchConditionRemainder`, and for plain conditions by `SearchProps.PlainIsChain` and `SearchProps.ConditionChainIsParse` |
| Parser.SearchLoop | parser.go:303-363 | no contract of its own: specified by `ParserProps.SearchLoopStep`, `ParserProps.SearchLoopNone` and `ParserProps.SearchLoopFound` |
| Parser.Connect | parser.go:330-356 | no contract of its own: specified by `ParserProps.ConnectSplits` |
| Parser.ParseBooleanValueExpression | parser.go:366-396 | no contract of its own: specified by `ParserProps.ParseBooleanValueExpressionSplits`, `ParserProps.ParseBooleanValueExpressionFlattens` and `ParserProps.ValueChainIsParse` |
| Parser.ValueLoop | parser.go:368-395 | no contract of its own: specified by `ParserProps.ValueLoopStep`, `ParserProps.ValueLoopNone` and `ParserProps.ValueLoopFound` |
| Parser.Compare | parser.go:378-388 | no contract of its own: specified by `ParserProps.CompareSplits` |
| Parser.ParseOrderByClause | parser.go:164-195 | no contract of its own: specified by `OrderByProps.ParseOrderByClauseAbsent` and `OrderByProps.ParseOrderByClauseSpecifications` |
| Parser.OrderByLoop | parser.go:171-194 | no contract of its own: specified by `OrderByProps.OrderByLoopSpec` |
| Parser.ParseSortSpecification | parser.go:197-203 | fails exactly on an empty group, with the index error; otherwise keyed by the first token and ordered by the second or by the zero token |
| Parser.SkipLoop | parser.go:333-347 | the gathered operand grows by at most the buffered tokens |
| ParserProps.RemoveRedundantParenStrips | parser.go:406-416 | the tokens change exactly when three or more run from an LPAREN to an RPAREN, and then only those two go |
| ParserProps.SelectListLoopStep | parser.go:208-226 | one turn over a token other than FROM keeps it exactly when it is an asterisk or an identifier |
| ParserProps.SelectListLoopFound | parser.go:205-230 | with a FROM, the select list is the asterisks and identifiers before the first FROM, which is left unread |
| ParserProps.SelectListLoopMissing | parser.go:208-212 | without a FROM, the reader is drained and the answer is io.EOF |
| ParserProps.TableListLoopStep | parser.go:261-278 | one turn over a token other than WHERE/ORDERBY keeps it exactly when it is an identifier |
| ParserProps.TableListLoopSpec | parser.go:259-281 | the tables are the identifiers before the first WHERE or ORDERBY, which is left unread |
| ParserProps.SkipLoopStep | parser.go:335-347 | one turn over a token other than ORDERBY/GROUPBY gathers it |
| ParserProps.SkipLoopSpec | parser.go:333-347 | the right operand is every token before the first ORDERBY or GROUPBY, which is left unread |
| ParserProps.ValueLoopStep | parser.go:368-392 | one turn over a token that is not an operator gathers it |
| ParserProps.ValueLoopNone | parser.go:366-396 | without an operator, every token is gathered into one raw value and the reader is drained |
| ParserProps.ValueLoopFound | parser.go:366-389 | at the first operator, the tokens before it and the reader past it go to the operator case |
| ParserProps.ValueLoopAtOperator | parser.go:377-389 | an operator at the front goes to the operator case at once |
| ParserProps.CompareSplits | parser.go:378-388 | the operator case parses the gathered tokens on their own as the left value and the rest of the reader as the right value |
| ParserProps.ParseBooleanValueExpressionDrains | parser.go:366-396 | the value expression reads its reader to the end |
| ParserProps.ParseBooleanValueExpressionRaw | parser.go:391-395 | without an operator the value is the tokens themselves |
| ParserProps.ParseBooleanValueExpressionAtOperator | parser.go:377-389 | with an operator the value is the raw tokens before the first operator, the operator, and the parse of the rest |
| ParserProps.ValueAtOperator | parser.go:377-389 | with an operator the whole reader goes to the operator case with the tokens before the first operator |
| ParserProps.ParseBooleanValueExpressionSplits | parser.go:366-396 | both cases together, split at the first operator |
| ParserProps.ParseBooleanValueExpressionFlattens | parser.go:366-396 | flattening the value tree gives its tokens back |
| ParserProps.ParseBooleanValueExpressionIsChain | parser.go:366-396 | the value tree is a right-nested chain of comparisons with raw, operator-free left values |
| ParserProps.ValueChainIsParse | parser.go:366-396 | every right-nested comparison chain is the parse of its own flattened tokens, so tree and tokens determine each other |
| ParserProps.SplitAt | parser.go:312-328 | the split point is within the stretch, and when inside, is an AND/OR |
| ParserProps.SplitAtTail | parser.go:312-361 | past a token that does not split, the split is one further, at the depth that token leaves |
| ParserProps.SearchLoopStep | parser.go:312-360 | one turn over a token that does not split moves the depth and gathers it unless it is a parenthesis taking the depth below zero |
| ParserProps.SearchLoopNone | parser.go:303-363 | without a splitting connective, everything but the dropped parentheses goes to the value expression and the reader is drained |
| ParserProps.SearchLoopFound | parser.go:303-330 | at the first AND/OR at depth zero, the tokens gathered so far and the reader past it go to the connective case |
| ParserProps.SearchLoopAtConnective | parser.go:325-330 | a connective at depth zero at the front goes to the connective case at once |
| ParserProps.ConnectSplits | parser.go:330-356 | the connective case is a BooleanTerm of the stripped left tokens and the stripped tokens up to ORDERBY/GROUPBY, each parsed on its own, leaving the reader at the stop token |
| SearchProps.ParseSearchConditionWhole | parser.go:299-364 | without a top-level AND/OR, the condition is the value expression of all but the dropped parentheses, and the reader is drained |
| SearchProps.ParseSearchConditionAtConnective | parser.go:299-331 | at the first top-level AND/OR, the condition goes to the connective case with what was gathered before it |
| SearchProps.ParseSearchConditionConnective | parser.go:299-357 | at the first top-level AND/OR, the condition is a BooleanTerm of the stripped, separately parsed operands, leaving the reader at ORDERBY/GROUPBY |
| SearchProps.ConnectRemainder | parser.go:333-347 | the connective case leaves the reader at the first ORDERBY or GROUPBY after the connective, or drained |
| SearchProps.ParseSearchConditionRemainder | parser.go:299-364 | what the condition leaves unread is a suffix of its input that is empty or starts with ORDERBY/GROUPBY |
| SearchProps.RemainderWhole | parser.go:303-363 | the same, when no connective splits |
| SearchProps.RemainderAtConnective | parser.go:325-356 | the same, at a connective |
| SearchProps.ConnectiveReader | parser.go:325-356 | at a connective, the remainder starts at the first ORDERBY/GROUPBY after it |
| SearchProps.KeptWithoutParens | parser.go:312-324 | without parentheses nothing is dropped |
| SearchProps.SplitAtWithoutParens | parser.go:312-328 | without parentheses the depth stays zero, so the split is at the first AND/OR |
| SearchProps.PlainFacts | parser.go:312-347 | a plain condition drops nothing, splits at its first AND/OR, is not stripped, and holds no stop token |
| SearchProps.PlainValue | parser.go:303-363 | a plain condition without connectives is its value expression |
| SearchProps.PlainPieces | parser.go:325-347 | the pieces around the first connective are plain, and the first holds no connective |
| SearchProps.ConnectPlain | parser.go:330-356 | the connective case over plain operands parses each as it is and drains the reader |
| SearchProps.PlainConnective | parser.go:325-356 | a plain condition with a connective is a BooleanTerm of the parses of the tokens before and after the first AND/OR |
| SearchProps.PlainDrains | parser.go:299-364 | a plain condition reads its reader to the end |
| SearchProps.PlainFlattens | parser.go:299-364 | flattening the tree of a plain condition gives its tokens back |
| SearchProps.PlainIsChain | parser.go:299-364 | a plain condition parses to a right-nested AND/OR chain over comparison chains |
| SearchProps.ConditionChainIsParse | parser.go:299-364 | every such chain over plain tokens is the parse of its own flattened tokens, so tree and tokens determine each other |
| OrderByProps.SpecsOfGroups | parser.go:197-203 | the specifications exist exactly when no group is empty; then there is one per group, each the group's specification; otherwise the index error |
| OrderByProps.OrderByLoopStep | parser.go:189-191 | a token other than a comma joins the current group |
| OrderByProps.OrderByLoopComma | parser.go:185-188 | a comma closes the current group, failing when it is empty |
| OrderByProps.SplitOnTail | parser.go:189-191 | past a non-separator, the first group grows by that token and the others stay |
| OrderByProps.SplitOnLeading | parser.go:185-188 | a leading separator closes an empty first group |
| OrderByProps.SpecsOfCons | parser.go:185-188 | the specifications of a group followed by more groups: the index error for an empty one, else its specification in front |
| OrderByProps.OrderByLoopSpec | parser.go:171-194 | the loop closes one specification per comma-separated group, the first continuing what was gathered, and on success drains the reader |
| OrderByProps.ParseOrderByClauseAbsent | parser.go:165-166 | without a leading ORDERBY there is no clause and nothing is read |
| OrderByProps.ParseOrderByClauseGroups | parser.go:164-194 | after ORDERBY, the clause is the specifications of the comma-separated groups of the rest, read to the end |
| OrderByProps.ParseOrderByClauseSpecifications | parser.go:164-203 | after ORDERBY, success exactly when no group is empty; then one specification more than there are commas, keyed and ordered by each group's first two tokens |
| QueryProps.TablePartToTheEnd | parser.go:232-281 | with neither WHERE nor ORDERBY after FROM, every identifier is a table and nothing is left |
| QueryProps.ParseFromClauseRejects | parser.go:253-254 | without a leading FROM the clause is an invalid query and nothing is read |
| QueryProps.ParseFromClauseTables | parser.go:252-281 | after FROM the tables are the identifiers up to WHERE, ORDERBY or the end, where the reader is left |
| QueryProps.ParseWhereClauseCondition | parser.go:284-297 | without a leading WHERE, an invalid query; after it, the search condition of the rest |
| QueryProps.ParseTableExpressionParts | parser.go:232-250 | after FROM the table expression is the tables, then the WHERE condition when WHERE follows |
| QueryProps.ParseOrderByClauseError | parser.go:164-203 | the ORDER BY clause can fail only with the index error |
| QueryProps.ParseSelectListParts | parser.go:205-230 | with a FROM, the select list is the asterisks and identifiers before it |
| QueryProps.ParseSelectRestParts | parser.go:146-161 | from FROM on, the table expression and then the ORDER BY clause of what it leaves; only the latter can fail |
| QueryProps.ParseSelectParts | parser.go:123-162 | a SELECT query with a FROM: the select list, the table expression and the ORDER BY clause, failing only when that clause does |
| QueryProps.ParseStartsWithSelect | parser.go:123-131 | a stream starting with SELECT is parsed as a SELECT statement |
| QueryProps.ParseWithoutFrom | parser.go:140-150 | a SELECT query without FROM is an invalid query |
| QueryProps.ParseInvalidQuery | parser.go:123-162 | the invalid-query error exactly when the stream is empty, does not start with SELECT or has no FROM; any other failure is the index error |
| QueryProps.WhereAbsorbsOrderBy | parser.go:303-363 | a WHERE condition without a top-level AND/OR reads the rest of the query, so the query has no ORDER BY clause |
| QueryProps.TablePartWhole | parser.go:239-247 | such a condition leaves nothing after the table expression |
| QueryProps.ParseToTheEnd | parser.go:155-161 | when the table expression reads every token, there is no ORDER BY clause and the query succeeds |
| QueryProps.ParseWithoutWhere | parser.go:137-162 | without WHERE or ORDER BY after FROM, the query is its select list and every identifier after FROM as a table |
| Scenarios.ConjunctionOfComparisons | parser_test.go:179-216 | `id = 1 AND age = 20` is a BooleanTerm of two comparisons |
| Scenarios.ConjunctionWithTrailingEof | parser_test.go:179-192 | with the test array's trailing EOF token, that token ends up in the last comparison value |
| Scenarios.GroupByIdentifierIsTable | parser.go:259-281 | `FROM users GROUP BY group_id` gives two tables, `users` and `group_id` |
| Scenarios.RemoveRedundantParenTwice | parser.go:406-416 | `( ( a ) )` loses one pair per call, so stripping twice differs from stripping once |
| Scenarios.RemoveRedundantParenUnmatched | parser.go:406-416 | `( a ) = ( b )` loses its outer parentheses although they do not match |
| Scenarios.OrderByTwoKeys | parser_test.go:259-278 | `ORDER BY col DESC , rank` gives two specifications, the second ordered by the zero token |
| Scenarios.OrderByTrailingEof | parser_test.go:259-278 | with the test array's trailing EOF token, that token becomes the order of the last specification |
| Scenarios.OrderByEmptyGroup | parser.go:197-198 | `ORDER BY , rank` indexes an empty group |

## Left out

- The `bufio.Reader` and `io.Reader` plumbing of the lexer. The input is the whole text as a sequence of byte-valued characters. Read errors other than io.EOF cannot arise, so the Go branches that forward them are not written out.
- Lexer.Atoi: integers are unbounded. Go's `strconv.Atoi` rejects numerals outside the 64-bit range, which then become IDENT tokens; the model gives them INT.
- Lexer.ToLower: only byte-valued runes are modelled, because the lexer reads one byte per rune. The UTF-8 re-encoding that `string(statement)` applies to bytes above 0x7F is not modelled.
- Reader.Peek and Reader.Discard take a `nat`. The behaviour of Go's `Peek` and `Discard` for a negative count is not modelled; the parser always passes 1.
- The dead code of `parser.go` is not modelled: `parserPredicate`, `parseBooleanTerm`, the `RawValue` type and the unused `SearchCondition` type. The `err == io.EOF` test after an error return in `parseSelectList` (parser.go:213-215) can never succeed and has no counterpart.
- The GroupBy and Having fields of `TableExpression` are never set by the parser and are not modelled.
- The runtime panic on an empty ORDER BY group is modelled as the `IndexOutOfRange` error, not as a crash.
- The `err == io.EOF` return after the table expression (parser.go:151-153) is modelled, but no path reaches it: the table expression fails only with the invalid-query error.
- Some expectations in `parser_test.go` differ from what the code does, and the model follows the code. `parser_test.go:297` expects a GROUP BY clause the parser never builds. The test arrays end in an EOF token, which the parser treats as an ordinary token.
- Parser.RemoveRedundantParen: its own contract states only the length bound. The full characterisation is `ParserProps.RemoveRedundantParenStrips`.
- Parser.SkipLoop: its own contract states only a length bound. What it gathers and where it stops is `ParserProps.SkipLoopSpec`.
- Lexer.ClassifyWord: its own contract states only that the reader is untouched and the kind is not EOF. The kind for each word is stated by `Lexer.ScanStatementKeyword` and `Lexer.ScanStatementPlainWord`.
- Parser.ParseSearchCondition: the exact condition tree is stated only for conditions without parentheses, ORDER BY or GROUP BY tokens (`SearchProps.Plain`). With parentheses, the model states how the condition splits and what it leaves unread, but not the whole tree.
