/**
 * The tokens of the language (src/token.rs), extended with the variants that
 * src/parser.rs names but src/token.rs does not declare.  Only the datatype is
 * modelled: the tokenizer itself is generated from regular expressions by a
 * derive macro, so the stream of token results is taken as given.
 */
module Tokens {
  import opened Wrappers

  datatype Token =
    | And
    | Or
    | Nil
    | Bool(b: bool)
    | Number(n: int)          // the 64-bit float of the source; the parser only copies it
    | Identifier(name: string)
    | Str(s: string)          // the raw quoted slice
    | Fn
    | If
    | Else
    | Do
    | End
    | Equal
    | Plus
    | Minus
    | Star
    | Slash
    | EqualEqual
    | BangEqual
    | NewLine
    // named by the parser, missing from the token declaration
    | Then
    | When
    | RThinArr              // ->
    | LRoundParen           // (
    | RRountParen           // )
    | Comma
    | Less
    | LessEqual
    | Greater
    | GreaterEqual

  /** A token or the lexer's error message for a slice that matches no token. */
  type TokenResult = Result<Token, string>

  /** What the stream `ts` yields at position `k`: a result, or `None` past the end. */
  function Lookahead(ts: seq<TokenResult>, k: nat): Option<TokenResult> {
    if k < |ts| then Some(ts[k]) else None
  }
}
