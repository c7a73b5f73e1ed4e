/** Tokens produced by the scanner and consumed by the parser (Token, TokenType). */
module Tokens {

  datatype Option<+T> = None | Some(value: T)

  /** The closed set of token kinds. */
  datatype TokenType =
    // single-character tokens
    | LeftParen | RightParen | LeftBrace | RightBrace
    | Comma | Minus | Plus | Semicolon | Slash | Star
    // one- or two-character tokens
    | Bang | BangEqual
    | Equal | EqualEqual
    | Greater | GreaterEqual
    | Less | LessEqual
    // literals
    | Identifier | String | Number
    // keywords
    | And | Else | False | Fun | For | If | Null | Or
    | Print | Return | True | Var | While
    | EOF

  /** The `Object literal` a token or a literal expression carries: the scanner only
      stores numbers and strings, the parser adds `true`, `false` and `null`. */
  datatype LiteralValue = NullLit | BoolLit(b: bool) | NumLit(r: real) | StrLit(s: string)

  datatype Token = Token(kind: TokenType, lexeme: string, literal: LiteralValue, line: nat)

  /** The token list is empty when `o` is `None` and holds the one token otherwise. */
  function OptionToSeq<T>(o: Option<T>): (s: seq<T>)
    ensures |s| <= 1
    ensures o.Some? <==> |s| == 1
    ensures o.Some? ==> s[0] == o.value
  {
    if o.Some? then [o.value] else []
  }
}
