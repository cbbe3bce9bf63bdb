/** Failure-carrying results shared by the lexer, the token reader and the parser.
    Go returns `(value, error)` pairs; the model folds the pair into one datatype. */
module Outcomes {

  /** The errors the core can produce. */
  datatype Error =
    | EndOfFile        // io.EOF: the normal "no more input" signal
    | InvalidQuery     // parser.ErrInvalidQuery
    | IndexOutOfRange  // the runtime panic raised when an empty ORDER BY group is indexed

  datatype Option<+T> = None | Some(value: T)

  datatype Result<+T> = Success(value: T) | Failure(error: Error)
}
