/** Lexical categories and tokens (headers/Token.h). */
module Tokens {

  datatype TokenType =
    // Single-character tokens.
    | LeftParen | RightParen | LeftBrace | RightBrace
    | Comma | Dot | Minus | Plus | Semicolon | Slash | Star
    // One or two character tokens.
    | Bang | BangEqual
    | Equal | EqualEqual
    | Greater | GreaterEqual
    | Less | LessEqual
    // Literals.
    | Identifier | String | Number
    // Keywords.
    | And | Class | Else | False | Fun | For | If | Nil | Or
    | Print | Return | Super | This | True | Var | While
    | EndOfFile

  /**
   * A token: its category, the exact source slice it was scanned from, the
   * literal text (string contents or number text, otherwise empty) and the
   * line the scanner was on when the token was added.
   */
  datatype Token = Token(kind: TokenType, lexeme: string, literal: string, line: nat)
}
