/** The slice-backed token reader of token.go: a buffer of tokens that the
    parser consumes from the front. The reader is a value; every operation
    returns the reader it leaves behind. */
module Reader {
  import opened Outcomes
  import opened Const

  datatype TokensReader = TokensReader(tokens: seq<Token>)

  function NewTokensReader(tokens: seq<Token>): TokensReader {
    TokensReader(tokens)
  }

  /** Hands out the first buffered token and drops it; with nothing buffered,
      answers io.EOF with an EOF token and leaves the buffer empty. */
  function Scan(tr: TokensReader): (s: Step<TokensReader>)
    ensures s.err.None? <==> |tr.tokens| > 0
    ensures s.err.None? ==> [s.token] + s.state.tokens == tr.tokens
    ensures s.err.Some? ==> s.err == Some(EndOfFile) && s.token.kind == EOF && s.state.tokens == []
  {
    if |tr.tokens| > 0 then
      Step(tr.tokens[0], None, TokensReader(tr.tokens[1..]))
    else
      Step(EofToken, Some(EndOfFile), tr)
  }

  /** The first `n` buffered tokens, when that many are buffered; io.EOF
      otherwise. Peeking returns no new reader: the buffer cannot change. */
  function Peek(tr: TokensReader, n: nat): (r: Result<seq<Token>>)
    ensures r.Success? <==> n <= |tr.tokens|
    ensures r.Success? ==> |r.value| == n && r.value + tr.tokens[n..] == tr.tokens
    ensures r.Failure? ==> r.error == EndOfFile
  {
    if |tr.tokens| >= n then Success(tr.tokens[..n]) else Failure(EndOfFile)
  }

  /** Drops the first `n` buffered tokens when that many are buffered; with
      fewer, leaves the buffer as it is. */
  function Discard(tr: TokensReader, n: nat): (r: TokensReader)
    ensures n <= |tr.tokens| ==> tr.tokens[..n] + r.tokens == tr.tokens && |r.tokens| == |tr.tokens| - n
    ensures n > |tr.tokens| ==> r == tr
  {
    if |tr.tokens| >= n then TokensReader(tr.tokens[n..]) else tr
  }

  /** The tokens `Scan` hands out, called until it answers io.EOF. */
  function Drain(tr: TokensReader): seq<Token>
    decreases |tr.tokens|
  {
    var s := Scan(tr);
    if s.err.Some? then [] else [s.token] + Drain(s.state)
  }

  /** Scanning until io.EOF hands out the buffered tokens, in order. */
  lemma {:induction false} DrainIsBuffer(tr: TokensReader)
    decreases |tr.tokens|
    ensures Drain(tr) == tr.tokens
  {
    var s := Scan(tr);
    if s.err.None? {
      DrainIsBuffer(s.state);
    }
  }

  /** A successful `Peek(1)` followed by `Discard(1)` sees the token `Scan`
      hands out and leaves the reader `Scan` leaves. */
  lemma PeekThenDiscardIsScan(tr: TokensReader)
    requires Peek(tr, 1).Success?
    ensures Scan(tr).err.None?
    ensures Peek(tr, 1).value == [Scan(tr).token]
    ensures Discard(tr, 1) == Scan(tr).state
  {
  }

  /** `Peek(1)` fails exactly when `Scan` answers io.EOF, with the same error. */
  lemma PeekOneFailsAtEnd(tr: TokensReader)
    ensures Peek(tr, 1).Failure? <==> Scan(tr).err.Some?
    ensures Peek(tr, 1).Failure? ==> Scan(tr).err == Some(Peek(tr, 1).error)
  {
  }

  /** Discarding `m` and then `n` tokens is discarding `m + n`, when that many
      are buffered. */
  lemma DiscardTwice(tr: TokensReader, m: nat, n: nat)
    requires m + n <= |tr.tokens|
    ensures Discard(Discard(tr, m), n) == Discard(tr, m + n)
  {
  }
}
