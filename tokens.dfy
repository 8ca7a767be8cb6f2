/** The vocabulary shared by the lexer and the parser: the token kinds,
    the failures either of them can report, and the result wrapper that
    carries a value or a failure. */
module Tokens {

  /** The symbols the lexer hands to the parser. A NUMBER carries no
      payload: its value lives in the lexer's `value` field. */
  datatype Token =
    | PLUS | MINUS | DIV | MUL | LPAR | RPAR | EXP | REMAINDER | DOT | NUMBER | EOF

  /** Every failure of the pipeline, one constructor per message. */
  datatype Error =
    | ReaderNull             // "Reader cannot be null."
    | LexerNull              // "Lexer cannot be null."
    | UnknownSymbol          // "Unknown symbol."
    | NoMatchingParenthesis  // "No matching parenthesis found."
    | ExpressionIncomplete   // "Expression is incomplete."
    | TwoDots                // "Decimals cannot have two dots."

  /** The message text each failure carries. */
  function Message(e: Error): string {
    match e
    case ReaderNull => "Reader cannot be null."
    case LexerNull => "Lexer cannot be null."
    case UnknownSymbol => "Unknown symbol."
    case NoMatchingParenthesis => "No matching parenthesis found."
    case ExpressionIncomplete => "Expression is incomplete."
    case TwoDots => "Decimals cannot have two dots."
  }

  datatype Option<+T> = None | Some(value: T)

  /** A value, or the failure that aborted the computation. */
  datatype Result<+T> = Ok(value: T) | Err(error: Error) {
    predicate IsFailure() { Err? }
    function PropagateFailure<U>(): Result<U> requires Err? { Err(error) }
    function Extract(): T requires Ok? { value }
  }
}
