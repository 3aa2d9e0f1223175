/**
 * Tokens as the Monkey lexer hands them to the parser. The token package itself
 * is not part of this model: only the categories and the literal text matter here.
 */
module Tokens {
  /** Token categories of the Monkey language. */
  datatype TokenType =
    | Illegal | Eof
    | Ident | Int
    | Assign | Plus | Minus | Bang | Asterisk | Slash | Lt | Gt | Eq | NotEq
    | Comma | Semicolon | LParen | RParen | LBrace | RBrace
    | Function | Let | True | False | If | Else | Return

  /** A token: its category and the source text it was read from. */
  datatype Token = Token(typ: TokenType, literal: string)
}
