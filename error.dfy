/** The lexical failures (`src/error.rs`) and the result type that carries them. */
module Errors {
  import opened Positions

  datatype Error =
    | UnexpectedCharacter(pos: Pos)
    | NoCharacterAfterBackSlash(pos: Pos)
    | UnterminatedComment(pos: Pos)
    | UnterminatedStringLiteral(pos: Pos)
    | NoLineFeedAtEOF
    | IncompleteScientificNotation(range: Range)
    | SingleAmpersand(range: Range)
    | SingleDot(range: Range)
      /** The numeric text could not be read as a float; the parser's own message is not kept. */
    | ParseFloatFailure(range: Range)

  datatype Result<T> = Ok(value: T) | Err(error: Error)
}
