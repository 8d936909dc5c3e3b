/**
 * The parser of src/parser.rs as functions of the token results `ts` and the
 * position `i` of the next result the lexer would hand out.  A successful step
 * yields what it built and the position after the tokens it consumed; peeks
 * are `Lookahead(ts, i)` and `Lookahead(ts, i + 1)`.  Termination: at each
 * call either the position advances or the call goes down the chain
 * expr > multi > single > aoc > assign > clause > binary > binary_pratt >
 * binary_lower > if/when > primary > fn_decl/call, and comma_list > its
 * item parser > the function it stands for.
 */
module Grammar {
  import opened Wrappers
  import opened Tokens
  import Ast

  /** The parser's error messages, one constructor per `Err` the source builds. */
  datatype ParseError =
    | LexFailure(message: string)          // a lex error seen in the lookahead, passed on as it is
    | ExtractLexFailure(message: string)   // a lex error in the token extract_token takes
    | NoNextToken                          // extract_token at end of input
    | NeedIdent(got: Token)                // assign and call: the first token is not an identifier
    | ExpectIdent(got: Token)              // extract_ident: the token is not an identifier
    | UnexpectedToken(expects: seq<Token>, got: Token)  // consume_token
    | InvalidToken(got: Token)             // primary: no production starts with this token

  /** What a successful step built, and where the next step starts. */
  datatype Parsed<+T> = Parsed(result: T, next: nat)

  type Parsing<T> = Result<Parsed<T>, ParseError>

  /** The item parsers comma_list is called with. */
  datatype LowerFn = AocFn | WhenLowerFn | ClauseFn | ExtractIdentFn

  /** An item of a comma-separated list: a node, a `when` arm, or a parameter name. */
  datatype Item =
    | NodeItem(node: Ast.AstNode)
    | ArmItem(cond: Ast.AstNode, body: Ast.AstNode)
    | NameItem(name: string)

  /** The item a given item parser produces. */
  predicate OfKind(it: Item, k: LowerFn) {
    match k
    case AocFn => it.NodeItem?
    case ClauseFn => it.NodeItem?
    case WhenLowerFn => it.ArmItem? && it.body.Multi?
    case ExtractIdentFn => it.NameItem?
  }

  function Nodes(items: seq<Item>): seq<Ast.AstNode>
    requires forall k :: 0 <= k < |items| ==> items[k].NodeItem?
  {
    seq(|items|, k requires 0 <= k < |items| => items[k].node)
  }

  function Arms(items: seq<Item>): seq<(Ast.AstNode, Ast.AstNode)>
    requires forall k :: 0 <= k < |items| ==> items[k].ArmItem?
  {
    seq(|items|, k requires 0 <= k < |items| => (items[k].cond, items[k].body))
  }

  function Names(items: seq<Item>): seq<string>
    requires forall k :: 0 <= k < |items| ==> items[k].NameItem?
  {
    seq(|items|, k requires 0 <= k < |items| => items[k].name)
  }

  /** What binary_lower produces: anything but a binary operation, a block or an assignment. */
  predicate IsOperand(n: Ast.AstNode) {
    n.If? || n.When? || n.Primary? || n.Variable? || n.Call?
  }

  /** The tokens that have a binding power. */
  const Operators: set<Token> :=
    {Plus, Minus, Star, Slash, And, Or, Less, LessEqual, Greater, GreaterEqual, EqualEqual, BangEqual}

  function InfixBindingPower(op: Token): (r: Option<(nat, nat)>)
    ensures r.Some? <==> op in Operators
    ensures r.Some? ==> r.value.1 == r.value.0 + 1 && 1 <= r.value.0 <= 9
  {
    match op
    case Plus | Minus => Some((1, 2))
    case Star | Slash => Some((3, 4))
    case And | Or => Some((5, 6))
    case Less | LessEqual | Greater | GreaterEqual => Some((7, 8))
    case EqualEqual | BangEqual => Some((9, 10))
    case _ => None
  }

  function ExtractToken(ts: seq<TokenResult>, i: nat): (r: Parsing<Token>)
    requires i <= |ts|
    ensures r.Ok? <==> i < |ts| && ts[i].Ok?
    ensures r.Ok? ==> r.value.next == i + 1 && ts[i] == Ok(r.value.result)
    ensures i == |ts| ==> r == Err(NoNextToken)
    ensures i < |ts| && ts[i].Err? ==> r == Err(ExtractLexFailure(ts[i].error))
  {
    if i < |ts| then
      match ts[i]
      case Ok(t) => Ok(Parsed(t, i + 1))
      case Err(e) => Err(ExtractLexFailure(e))
    else
      Err(NoNextToken)
  }

  function ConsumeToken(ts: seq<TokenResult>, i: nat, expects: seq<Token>): (r: Parsing<Token>)
    requires i <= |ts|
    ensures r.Ok? <==> i < |ts| && ts[i].Ok? && (expects == [] || ts[i].value in expects)
    ensures r.Ok? ==> r.value.next == i + 1 && ts[i] == Ok(r.value.result)
    ensures r.Err? && i < |ts| && ts[i].Ok? ==> r == Err(UnexpectedToken(expects, ts[i].value))
    ensures r.Err? && !(i < |ts| && ts[i].Ok?) ==> r == ExtractToken(ts, i).PropagateFailure()
  {
    var t :- ExtractToken(ts, i);
    if |expects| == 0 || t.result in expects then Ok(t) else Err(UnexpectedToken(expects, t.result))
  }

  function ExtractIdent(ts: seq<TokenResult>, i: nat): (r: Parsing<string>)
    requires i <= |ts|
    ensures r.Ok? <==> i < |ts| && ts[i].Ok? && ts[i].value.Identifier?
    ensures r.Ok? ==> r.value == Parsed(ts[i].value.name, i + 1)
    ensures i < |ts| && ts[i].Ok? && !ts[i].value.Identifier? ==> r == Err(ExpectIdent(ts[i].value))
  {
    var t :- ExtractToken(ts, i);
    if t.result.Identifier? then Ok(Parsed(t.result.name, t.next)) else Err(ExpectIdent(t.result))
  }

  function Parse(ts: seq<TokenResult>): (r: Parsing<Ast.AstNode>)
    ensures r.Ok? ==> 0 < r.value.next <= |ts|
  {
    Expr(ts, 0)
  }

  function Expr(ts: seq<TokenResult>, i: nat): (r: Parsing<Ast.AstNode>)
    requires i <= |ts|
    ensures r.Ok? ==> i < r.value.next <= |ts|
    ensures r.Ok? ==> (r.value.result.Multi? <==> Lookahead(ts, i) == Some(Ok(Do)))
    decreases |ts| - i, 19
  {
    if Lookahead(ts, i) == Some(Ok(Do)) then Multi(ts, i) else Single(ts, i)
  }

  function Multi(ts: seq<TokenResult>, i: nat): (r: Parsing<Ast.AstNode>)
    requires i <= |ts|
    ensures r.Ok? ==> i < r.value.next <= |ts| && r.value.result.Multi?
    ensures r.Ok? ==> ts[i] == Ok(Do) && ts[r.value.next - 1] == Ok(End)
    decreases |ts| - i, 18
  {
    var open :- ConsumeToken(ts, i, [Do]);
    var items :- CommaList(ts, open.next, AocFn, End);
    var close :- ConsumeToken(ts, items.next, [End]);
    Ok(Parsed(Ast.Multi(Nodes(items.result)), close.next))
  }

  function Single(ts: seq<TokenResult>, i: nat): (r: Parsing<Ast.AstNode>)
    requires i <= |ts|
    ensures r.Ok? ==> i < r.value.next <= |ts| && !r.value.result.Multi?
    decreases |ts| - i, 17
  {
    Aoc(ts, i)
  }

  function Aoc(ts: seq<TokenResult>, i: nat): (r: Parsing<Ast.AstNode>)
    requires i <= |ts|
    ensures r.Ok? ==> i < r.value.next <= |ts| && !r.value.result.Multi?
    ensures r.Ok? ==> (r.value.result.Assign? <==> Lookahead(ts, i + 1) == Some(Ok(Equal)))
    decreases |ts| - i, 16
  {
    if Lookahead(ts, i + 1) == Some(Ok(Equal)) then Assign(ts, i) else Clause(ts, i)
  }

  function Assign(ts: seq<TokenResult>, i: nat): (r: Parsing<Ast.AstNode>)
    requires i <= |ts|
    ensures r.Ok? ==> i + 2 < r.value.next <= |ts| && r.value.result.Assign?
    ensures r.Ok? ==> ts[i] == Ok(Identifier(r.value.result.ident)) && ts[i + 1] == Ok(Equal)
    ensures i < |ts| && ts[i].Ok? && !ts[i].value.Identifier? ==> r == Err(NeedIdent(ts[i].value))
    decreases |ts| - i, 15
  {
    var id :- ExtractToken(ts, i);
    if !id.result.Identifier? then
      Err(NeedIdent(id.result))
    else
      var eq :- ConsumeToken(ts, id.next, [Equal]);
      var body :- Clause(ts, eq.next);
      Ok(Parsed(Ast.Assign(id.result.name, body.result), body.next))
  }

  function Clause(ts: seq<TokenResult>, i: nat): (r: Parsing<Ast.AstNode>)
    requires i <= |ts|
    ensures r.Ok? ==> i < r.value.next <= |ts|
    ensures r.Ok? ==> IsOperand(r.value.result) || r.value.result.Binary?
    decreases |ts| - i, 14
  {
    Binary(ts, i)
  }

  function If(ts: seq<TokenResult>, i: nat): (r: Parsing<Ast.AstNode>)
    requires i <= |ts|
    ensures r.Ok? ==> i < r.value.next <= |ts|
    ensures r.Ok? ==> r.value.result.If? && r.value.result.true_.Multi? && r.value.result.false_.Multi?
    decreases |ts| - i, 10
  {
    var kw :- ConsumeToken(ts, i, [Token.If]);
    var cond :- Clause(ts, kw.next);
    var th :- ConsumeToken(ts, cond.next, [Then]);
    var t :- Multi(ts, th.next);
    var el :- ConsumeToken(ts, t.next, [Else]);
    var f :- Multi(ts, el.next);
    Ok(Parsed(Ast.If(cond.result, t.result, f.result), f.next))
  }

  function When(ts: seq<TokenResult>, i: nat): (r: Parsing<Ast.AstNode>)
    requires i <= |ts|
    ensures r.Ok? ==> i < r.value.next <= |ts| && r.value.result.When?
    ensures r.Ok? ==> forall a :: 0 <= a < |r.value.result.arms| ==> r.value.result.arms[a].1.Multi?
    decreases |ts| - i, 10
  {
    var kw :- ConsumeToken(ts, i, [Token.When]);
    var arms :- CommaList(ts, kw.next, WhenLowerFn, End);
    var close :- ConsumeToken(ts, arms.next, [End]);
    Ok(Parsed(Ast.When(Arms(arms.result)), close.next))
  }

  function WhenLower(ts: seq<TokenResult>, i: nat): (r: Parsing<(Ast.AstNode, Ast.AstNode)>)
    requires i <= |ts|
    ensures r.Ok? ==> i < r.value.next <= |ts| && r.value.result.1.Multi?
    decreases |ts| - i, 21
  {
    var cond :- Clause(ts, i);
    var arrow :- ConsumeToken(ts, cond.next, [RThinArr]);
    var body :- Multi(ts, arrow.next);
    Ok(Parsed((cond.result, body.result), body.next))
  }

  function Call(ts: seq<TokenResult>, i: nat): (r: Parsing<Ast.AstNode>)
    requires i <= |ts|
    ensures r.Ok? ==> i + 2 < r.value.next <= |ts| && r.value.result.Call?
    ensures r.Ok? ==> ts[i] == Ok(Identifier(r.value.result.ident)) && ts[i + 1] == Ok(LRoundParen)
    ensures r.Ok? ==> ts[r.value.next - 1] == Ok(RRountParen)
    decreases |ts| - i, 8
  {
    var id :- ExtractToken(ts, i);
    if !id.result.Identifier? then
      Err(NeedIdent(id.result))
    else
      var open :- ConsumeToken(ts, id.next, [LRoundParen]);
      var args :- CommaList(ts, open.next, ClauseFn, RRountParen);
      var close :- ConsumeToken(ts, args.next, [RRountParen]);
      Ok(Parsed(Ast.Call(id.result.name, Nodes(args.result)), close.next))
  }

  function Binary(ts: seq<TokenResult>, i: nat): (r: Parsing<Ast.AstNode>)
    requires i <= |ts|
    ensures r.Ok? ==> i < r.value.next <= |ts|
    ensures r.Ok? ==> IsOperand(r.value.result) || r.value.result.Binary?
    decreases |ts| - i, 13
  {
    BinaryPratt(ts, i, 0)
  }

  function BinaryPratt(ts: seq<TokenResult>, i: nat, minBp: nat): (r: Parsing<Ast.AstNode>)
    requires i <= |ts|
    ensures r.Ok? ==> i < r.value.next <= |ts|
    ensures r.Ok? ==> IsOperand(r.value.result) || r.value.result.Binary?
    decreases |ts| - i, 12
  {
    var lhs :- BinaryLower(ts, i);
    PrattLoop(ts, lhs.next, minBp, lhs.result)
  }

  /** The loop of binary_pratt, entered with the left operand `acc` built so far. */
  function PrattLoop(ts: seq<TokenResult>, j: nat, minBp: nat, acc: Ast.AstNode): (r: Parsing<Ast.AstNode>)
    requires j <= |ts|
    ensures r.Ok? ==> j <= r.value.next <= |ts|
    ensures r.Ok? ==> r.value.result == acc || r.value.result.Binary?
    decreases |ts| - j, 12
  {
    match Lookahead(ts, j)
    case None => Ok(Parsed(acc, j))
    case Some(Err(e)) => Err(LexFailure(e))
    case Some(Ok(op)) =>
      match InfixBindingPower(op)
      case None => Ok(Parsed(acc, j))
      case Some((lbp, rbp)) =>
        if minBp > lbp then
          Ok(Parsed(acc, j))
        else
          var o :- ConsumeToken(ts, j, []);
          var rhs :- BinaryPratt(ts, o.next, rbp);
          PrattLoop(ts, rhs.next, minBp, Ast.Binary(acc, op, rhs.result))
  }

  /** One round of binary_pratt's loop when an operator it may take comes next. */
  lemma PrattLoopStep(ts: seq<TokenResult>, j: nat, minBp: nat, acc: Ast.AstNode)
    requires j < |ts| && ts[j].Ok? && InfixBindingPower(ts[j].value).Some?
    requires minBp <= InfixBindingPower(ts[j].value).value.0
    ensures var op := ts[j].value;
      var rhs := BinaryPratt(ts, j + 1, InfixBindingPower(op).value.1);
      PrattLoop(ts, j, minBp, acc) ==
        if rhs.Err? then Err(rhs.error) else PrattLoop(ts, rhs.value.next, minBp, Ast.Binary(acc, op, rhs.value.result))
  {
  }

  function BinaryLower(ts: seq<TokenResult>, i: nat): (r: Parsing<Ast.AstNode>)
    requires i <= |ts|
    ensures r.Ok? ==> i < r.value.next <= |ts| && IsOperand(r.value.result)
    decreases |ts| - i, 11
  {
    if Lookahead(ts, i) == Some(Ok(Token.If)) then If(ts, i)
    else if Lookahead(ts, i) == Some(Ok(Token.When)) then When(ts, i)
    else Primary(ts, i)
  }

  function Primary(ts: seq<TokenResult>, i: nat): (r: Parsing<Ast.AstNode>)
    requires i <= |ts|
    ensures r.Ok? ==> i < r.value.next <= |ts|
    ensures r.Ok? ==> r.value.result.Primary? || r.value.result.Variable? || r.value.result.Call?
    decreases |ts| - i, 9
  {
    var peeked := Lookahead(ts, i);
    if peeked == Some(Ok(Fn)) then
      FnDecl(ts, i)
    else if peeked.Some? && peeked.value.Ok? && peeked.value.value.Identifier? then
      if Lookahead(ts, i + 1) == Some(Ok(LRoundParen)) then
        Call(ts, i)
      else
        var id :- ExtractToken(ts, i);
        Ok(Parsed(Ast.Variable(peeked.value.value.name), id.next))
    else
      var t :- ExtractToken(ts, i);
      match LiteralValue(t.result)
      case Some(v) => Ok(Parsed(Ast.Primary(v), t.next))
      case None => Err(InvalidToken(t.result))
  }

  /** The value a literal token stands for; `None` for every token that is not a literal. */
  function LiteralValue(t: Token): (r: Option<Ast.Value>)
    ensures r.Some? <==> t.Nil? || t.Bool? || t.Number? || t.Str?
  {
    if t.Nil? then Some(Ast.Nil)
    else if t.Bool? then Some(Ast.Bool(t.b))
    else if t.Number? then Some(Ast.Number(t.n))
    else if t.Str? then Some(Ast.Str(t.s))
    else None
  }

  function FnDecl(ts: seq<TokenResult>, i: nat): (r: Parsing<Ast.AstNode>)
    requires i <= |ts|
    ensures r.Ok? ==> i + 1 < r.value.next <= |ts|
    ensures r.Ok? ==> r.value.result.Primary? && r.value.result.value.Fn? && ts[i] == Ok(Fn)
    decreases |ts| - i, 8
  {
    var kw :- ConsumeToken(ts, i, [Fn]);
    var params :- CommaList(ts, kw.next, ExtractIdentFn, RThinArr);
    var arrow :- ConsumeToken(ts, params.next, [RThinArr]);
    var body :- Expr(ts, arrow.next);
    Ok(Parsed(Ast.Primary(Ast.Fn(Names(params.result), body.result)), body.next))
  }

  /** comma_list: nothing when `end` comes next, else items separated by commas up to the first non-comma. */
  function CommaList(ts: seq<TokenResult>, i: nat, k: LowerFn, end: Token): (r: Parsing<seq<Item>>)
    requires i <= |ts|
    ensures r.Ok? ==> i <= r.value.next <= |ts|
    ensures r.Ok? ==> forall n :: 0 <= n < |r.value.result| ==> OfKind(r.value.result[n], k)
    ensures r.Ok? ==> (r.value.result == [] <==> Lookahead(ts, i) == Some(Ok(end)))
    ensures r.Ok? ==> (r.value.result == [] <==> r.value.next == i)
    decreases |ts| - i, 23
  {
    if Lookahead(ts, i) == Some(Ok(end)) then
      Ok(Parsed([], i))
    else
      var first :- LowerItem(ts, i, k);
      CommaLoop(ts, first.next, k, [first.result])
  }

  /** The loop of comma_list, entered with the items `acc` parsed so far. */
  function CommaLoop(ts: seq<TokenResult>, j: nat, k: LowerFn, acc: seq<Item>): (r: Parsing<seq<Item>>)
    requires j <= |ts|
    ensures r.Ok? ==> j <= r.value.next <= |ts|
    ensures r.Ok? ==> |acc| <= |r.value.result| && r.value.result[..|acc|] == acc
    ensures r.Ok? ==> forall n :: |acc| <= n < |r.value.result| ==> OfKind(r.value.result[n], k)
    ensures r.Ok? ==> (r.value.next == j <==> r.value.result == acc)
    decreases |ts| - j, 23
  {
    var peeked := Lookahead(ts, j);
    if peeked == Some(Ok(Comma)) then
      var c :- ConsumeToken(ts, j, [Comma]);
      var item :- LowerItem(ts, c.next, k);
      CommaLoop(ts, item.next, k, acc + [item.result])
    else if peeked.Some? && peeked.value.Err? then
      Err(LexFailure(peeked.value.error))
    else
      Ok(Parsed(acc, j))  // any other token, or end of input
  }

  /** One round of comma_list's loop when a comma comes next. */
  lemma CommaLoopStep(ts: seq<TokenResult>, j: nat, k: LowerFn, acc: seq<Item>)
    requires j < |ts| && ts[j] == Ok(Comma)
    ensures var item := LowerItem(ts, j + 1, k);
      CommaLoop(ts, j, k, acc) ==
        if item.Err? then Err(item.error) else CommaLoop(ts, item.value.next, k, acc + [item.value.result])
  {
  }

  /** Calls the item parser `k` stands for. */
  function LowerItem(ts: seq<TokenResult>, i: nat, k: LowerFn): (r: Parsing<Item>)
    requires i <= |ts|
    ensures r.Ok? ==> i < r.value.next <= |ts| && OfKind(r.value.result, k)
    decreases |ts| - i, 22
  {
    match k
    case AocFn =>
      var n :- Aoc(ts, i);
      Ok(Parsed(NodeItem(n.result), n.next))
    case WhenLowerFn =>
      var arm :- WhenLower(ts, i);
      Ok(Parsed(ArmItem(arm.result.0, arm.result.1), arm.next))
    case ClauseFn =>
      var n :- Clause(ts, i);
      Ok(Parsed(NodeItem(n.result), n.next))
    case ExtractIdentFn =>
      var name :- ExtractIdent(ts, i);
      Ok(Parsed(NameItem(name.result), name.next))
  }
}
