/**
 * A printer for the syntax tree: the tokens a tree is read back from, in the
 * concrete syntax that src/parser.rs accepts.  It is the partner of the parser
 * in ParseCoverage, which proves that whatever a production builds prints back
 * as exactly the tokens that production consumed.
 */
module Unparsing {
  import opened Wrappers
  import opened Tokens
  import Ast
  import G = Grammar

  /** The parts of a list, separated by commas (no trailing comma). */
  function Join(parts: seq<seq<Token>>): (r: seq<Token>)
    ensures parts == [] ==> r == []
  {
    if |parts| == 0 then []
    else if |parts| == 1 then parts[0]
    else Join(parts[..|parts| - 1]) + [Comma] + parts[|parts| - 1]
  }

  function Unparse(n: Ast.AstNode): seq<Token> {
    match n
    case Multi(nodes) =>
      [Do] + Join(seq(|nodes|, k requires 0 <= k < |nodes| => Unparse(nodes[k]))) + [End]
    case Assign(x, body) =>
      [Identifier(x), Equal] + Unparse(body)
    case If(c, t, f) =>
      [Token.If] + Unparse(c) + [Then] + Unparse(t) + [Else] + Unparse(f)
    case When(arms) =>
      [Token.When] + Join(seq(|arms|, k requires 0 <= k < |arms| => Unparse(arms[k].0) + [RThinArr] + Unparse(arms[k].1))) + [End]
    case Call(x, args) =>
      [Identifier(x), LRoundParen] + Join(seq(|args|, k requires 0 <= k < |args| => Unparse(args[k]))) + [RRountParen]
    case Variable(x) =>
      [Identifier(x)]
    case Binary(l, op, r) =>
      Unparse(l) + [op] + Unparse(r)
    case Primary(v) =>
      match v
      case Nil => [Token.Nil]
      case Bool(b) => [Token.Bool(b)]
      case Number(x) => [Token.Number(x)]
      case Str(s) => [Token.Str(s)]
      case Fn(params, body) =>
        [Token.Fn] + Join(seq(|params|, k requires 0 <= k < |params| => [Identifier(params[k])])) + [RThinArr] + Unparse(body)
  }

  /** The tokens of one item of a comma-separated list. */
  function ItemTokens(it: G.Item): seq<Token> {
    match it
    case NodeItem(n) => Unparse(n)
    case ArmItem(c, b) => Unparse(c) + [RThinArr] + Unparse(b)
    case NameItem(x) => [Identifier(x)]
  }

  function ItemsTokens(items: seq<G.Item>): (r: seq<seq<Token>>)
    ensures |r| == |items|
  {
    seq(|items|, k requires 0 <= k < |items| => ItemTokens(items[k]))
  }

  /** The token results a lexer yields for the tokens `toks`. */
  function Oks(toks: seq<Token>): (r: seq<TokenResult>)
    ensures |r| == |toks|
  {
    seq(|toks|, k requires 0 <= k < |toks| => Ok(toks[k]))
  }
}
