/**
 * The syntax tree as src/parser.rs builds it (src/ast.rs declares an older,
 * two-variant tree that the parser no longer matches).
 */
module Ast {
  import Tokens

  datatype Value =
    | Nil
    | Bool(b: bool)
    | Number(n: int)
    | Str(s: string)
    | Fn(params: seq<string>, body: AstNode)

  datatype AstNode =
    | Multi(nodes: seq<AstNode>)
    | Assign(ident: string, body: AstNode)
    | If(cond: AstNode, true_: AstNode, false_: AstNode)
    | When(arms: seq<(AstNode, AstNode)>)
    | Call(ident: string, args: seq<AstNode>)
    | Variable(name: string)
    | Binary(left: AstNode, op: Tokens.Token, right: AstNode)
    | Primary(value: Value)
}
