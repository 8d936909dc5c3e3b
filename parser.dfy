/**
 * The parser of src/parser.rs as it runs: every function takes the shared
 * lexer and consumes tokens from it step by step.  Each method is proved to
 * return what the function of the same name in Grammar computes from the
 * lexer's remaining results, and, on success, to leave the lexer just after
 * the tokens that function says it consumed.
 */
module Parser {
  import opened Wrappers
  import opened Tokens
  import Ast
  import G = Grammar
  import opened Lexing

  /** `r` is what `spec` computes, and on success the lexer has handed out `delivered` results. */
  ghost predicate Agrees<T>(r: Result<T, G.ParseError>, spec: G.Parsing<T>, delivered: nat) {
    match spec
    case Ok(p) => r == Ok(p.result) && delivered == p.next
    case Err(e) => r == Err(e)
  }

  method Parse(lx: Lexer) returns (r: Result<Ast.AstNode, G.ParseError>)
    requires lx.Valid() && lx.Delivered() == 0
    modifies lx
    ensures lx.Valid()
    ensures Agrees(r, G.Parse(lx.src), lx.Delivered())
  {
    r := Expr(lx);
  }

  method Expr(lx: Lexer) returns (r: Result<Ast.AstNode, G.ParseError>)
    requires lx.Valid()
    modifies lx
    ensures lx.Valid()
    ensures Agrees(r, G.Expr(lx.src, old(lx.Delivered())), lx.Delivered())
    decreases |lx.src| - lx.Delivered(), 19
  {
    var t := lx.PeekToken();
    if t == Some(Ok(Do)) {
      r := Multi(lx);
    } else {
      r := Single(lx);
    }
  }

  method Multi(lx: Lexer) returns (r: Result<Ast.AstNode, G.ParseError>)
    requires lx.Valid()
    modifies lx
    ensures lx.Valid()
    ensures Agrees(r, G.Multi(lx.src, old(lx.Delivered())), lx.Delivered())
    decreases |lx.src| - lx.Delivered(), 18
  {
    var _ :- ConsumeToken(lx, [Do]);
    var nodes :- CommaList(lx, G.AocFn, End);
    var _ :- ConsumeToken(lx, [End]);
    return Ok(Ast.Multi(G.Nodes(nodes)));
  }

  method Single(lx: Lexer) returns (r: Result<Ast.AstNode, G.ParseError>)
    requires lx.Valid()
    modifies lx
    ensures lx.Valid()
    ensures Agrees(r, G.Single(lx.src, old(lx.Delivered())), lx.Delivered())
    decreases |lx.src| - lx.Delivered(), 17
  {
    r := Aoc(lx);
  }

  method Aoc(lx: Lexer) returns (r: Result<Ast.AstNode, G.ParseError>)
    requires lx.Valid()
    modifies lx
    ensures lx.Valid()
    ensures Agrees(r, G.Aoc(lx.src, old(lx.Delivered())), lx.Delivered())
    decreases |lx.src| - lx.Delivered(), 16
  {
    var t := lx.PeekTwoToken();
    if t == Some(Ok(Equal)) {
      r := Assign(lx);
    } else {
      r := Clause(lx);
    }
  }

  method Assign(lx: Lexer) returns (r: Result<Ast.AstNode, G.ParseError>)
    requires lx.Valid()
    modifies lx
    ensures lx.Valid()
    ensures Agrees(r, G.Assign(lx.src, old(lx.Delivered())), lx.Delivered())
    decreases |lx.src| - lx.Delivered(), 15
  {
    var identToken :- ExtractToken(lx);
    if !identToken.Identifier? {
      return Err(G.NeedIdent(identToken));
    }
    var _ :- ConsumeToken(lx, [Equal]);
    var body :- Clause(lx);
    return Ok(Ast.Assign(identToken.name, body));
  }

  method Clause(lx: Lexer) returns (r: Result<Ast.AstNode, G.ParseError>)
    requires lx.Valid()
    modifies lx
    ensures lx.Valid()
    ensures Agrees(r, G.Clause(lx.src, old(lx.Delivered())), lx.Delivered())
    decreases |lx.src| - lx.Delivered(), 14
  {
    r := Binary(lx);
  }

  method If(lx: Lexer) returns (r: Result<Ast.AstNode, G.ParseError>)
    requires lx.Valid()
    modifies lx
    ensures lx.Valid()
    ensures Agrees(r, G.If(lx.src, old(lx.Delivered())), lx.Delivered())
    decreases |lx.src| - lx.Delivered(), 10
  {
    var _ :- ConsumeToken(lx, [Token.If]);
    var cond :- Clause(lx);
    var _ :- ConsumeToken(lx, [Then]);
    var t :- Multi(lx);
    var _ :- ConsumeToken(lx, [Else]);
    var f :- Multi(lx);
    return Ok(Ast.If(cond, t, f));
  }

  method When(lx: Lexer) returns (r: Result<Ast.AstNode, G.ParseError>)
    requires lx.Valid()
    modifies lx
    ensures lx.Valid()
    ensures Agrees(r, G.When(lx.src, old(lx.Delivered())), lx.Delivered())
    decreases |lx.src| - lx.Delivered(), 10
  {
    var _ :- ConsumeToken(lx, [Token.When]);
    var cases :- CommaList(lx, G.WhenLowerFn, End);
    var _ :- ConsumeToken(lx, [End]);
    return Ok(Ast.When(G.Arms(cases)));
  }

  method WhenLower(lx: Lexer) returns (r: Result<(Ast.AstNode, Ast.AstNode), G.ParseError>)
    requires lx.Valid()
    modifies lx
    ensures lx.Valid()
    ensures Agrees(r, G.WhenLower(lx.src, old(lx.Delivered())), lx.Delivered())
    decreases |lx.src| - lx.Delivered(), 21
  {
    var cond :- Clause(lx);
    var _ :- ConsumeToken(lx, [RThinArr]);
    var body :- Multi(lx);
    return Ok((cond, body));
  }

  method Call(lx: Lexer) returns (r: Result<Ast.AstNode, G.ParseError>)
    requires lx.Valid()
    modifies lx
    ensures lx.Valid()
    ensures Agrees(r, G.Call(lx.src, old(lx.Delivered())), lx.Delivered())
    decreases |lx.src| - lx.Delivered(), 8
  {
    var identToken :- ExtractToken(lx);
    if !identToken.Identifier? {
      return Err(G.NeedIdent(identToken));
    }
    var _ :- ConsumeToken(lx, [LRoundParen]);
    var args :- CommaList(lx, G.ClauseFn, RRountParen);
    var _ :- ConsumeToken(lx, [RRountParen]);
    return Ok(Ast.Call(identToken.name, G.Nodes(args)));
  }

  method Binary(lx: Lexer) returns (r: Result<Ast.AstNode, G.ParseError>)
    requires lx.Valid()
    modifies lx
    ensures lx.Valid()
    ensures Agrees(r, G.Binary(lx.src, old(lx.Delivered())), lx.Delivered())
    decreases |lx.src| - lx.Delivered(), 13
  {
    r := BinaryPratt(lx, 0);
  }

  method BinaryPratt(lx: Lexer, minBp: nat) returns (r: Result<Ast.AstNode, G.ParseError>)
    requires lx.Valid()
    modifies lx
    ensures lx.Valid()
    ensures Agrees(r, G.BinaryPratt(lx.src, old(lx.Delivered()), minBp), lx.Delivered())
    decreases |lx.src| - lx.Delivered(), 12
  {
    ghost var spec := G.BinaryPratt(lx.src, lx.Delivered(), minBp);
    var l :- BinaryLower(lx);
    while true
      invariant lx.Valid()
      invariant old(lx.Delivered()) < lx.Delivered()
      invariant spec == G.PrattLoop(lx.src, lx.Delivered(), minBp, l)
      decreases |lx.src| - lx.Delivered()
    {
      var peeked := lx.PeekToken();
      var op;
      match peeked {
        case Some(Ok(t)) =>
          op := t;
        case Some(Err(err)) =>
          return Err(G.LexFailure(err));
        case None =>
          break;
      }
      var bp := G.InfixBindingPower(op);
      if bp.None? {
        break;
      }
      var (lBp, rBp) := bp.value;
      if minBp > lBp {
        break;
      }
      G.PrattLoopStep(lx.src, lx.Delivered(), minBp, l);
      var consumed := ConsumeToken(lx, []);  // cannot fail: the operator was just peeked
      assert consumed.Ok?;
      var right :- BinaryPratt(lx, rBp);
      l := Ast.Binary(l, op, right);
    }
    return Ok(l);
  }

  method BinaryLower(lx: Lexer) returns (r: Result<Ast.AstNode, G.ParseError>)
    requires lx.Valid()
    modifies lx
    ensures lx.Valid()
    ensures Agrees(r, G.BinaryLower(lx.src, old(lx.Delivered())), lx.Delivered())
    decreases |lx.src| - lx.Delivered(), 11
  {
    var t := lx.PeekToken();
    if t == Some(Ok(Token.If)) {
      r := If(lx);
    } else if t == Some(Ok(Token.When)) {
      r := When(lx);
    } else {
      r := Primary(lx);
    }
  }

  method Primary(lx: Lexer) returns (r: Result<Ast.AstNode, G.ParseError>)
    requires lx.Valid()
    modifies lx
    ensures lx.Valid()
    ensures Agrees(r, G.Primary(lx.src, old(lx.Delivered())), lx.Delivered())
    decreases |lx.src| - lx.Delivered(), 9
  {
    var peeked := lx.PeekToken();
    if peeked == Some(Ok(Fn)) {
      r := FnDecl(lx);
      return;
    }
    if peeked.Some? && peeked.value.Ok? && peeked.value.value.Identifier? {
      var second := lx.PeekTwoToken();
      if second == Some(Ok(LRoundParen)) {
        r := Call(lx);
        return;
      }
      var _ :- ExtractToken(lx);
      return Ok(Ast.Variable(peeked.value.value.name));
    }
    var token :- ExtractToken(lx);
    var prim := G.LiteralValue(token);
    if prim.None? {
      return Err(G.InvalidToken(token));
    }
    return Ok(Ast.Primary(prim.value));
  }

  method FnDecl(lx: Lexer) returns (r: Result<Ast.AstNode, G.ParseError>)
    requires lx.Valid()
    modifies lx
    ensures lx.Valid()
    ensures Agrees(r, G.FnDecl(lx.src, old(lx.Delivered())), lx.Delivered())
    decreases |lx.src| - lx.Delivered(), 8
  {
    var _ :- ConsumeToken(lx, [Fn]);
    var params :- CommaList(lx, G.ExtractIdentFn, RThinArr);
    var _ :- ConsumeToken(lx, [RThinArr]);
    var body :- Expr(lx);
    return Ok(Ast.Primary(Ast.Fn(G.Names(params), body)));
  }

  method CommaList(lx: Lexer, k: G.LowerFn, end: Token) returns (r: Result<seq<G.Item>, G.ParseError>)
    requires lx.Valid()
    modifies lx
    ensures lx.Valid()
    ensures Agrees(r, G.CommaList(lx.src, old(lx.Delivered()), k, end), lx.Delivered())
    decreases |lx.src| - lx.Delivered(), 23
  {
    var peeked := lx.PeekToken();
    if peeked == Some(Ok(end)) {
      return Ok([]);
    }
    var first :- LowerItem(lx, k);
    r := CommaLoop(lx, k, [first]);
  }

  /** The loop of comma_list, entered with the items `nodes` parsed so far. */
  method CommaLoop(lx: Lexer, k: G.LowerFn, nodes: seq<G.Item>) returns (r: Result<seq<G.Item>, G.ParseError>)
    requires lx.Valid()
    modifies lx
    ensures lx.Valid()
    ensures Agrees(r, G.CommaLoop(lx.src, old(lx.Delivered()), k, nodes), lx.Delivered())
    decreases |lx.src| - lx.Delivered(), 23
  {
    ghost var spec := G.CommaLoop(lx.src, lx.Delivered(), k, nodes);
    var items := nodes;
    while true
      invariant lx.Valid()
      invariant old(lx.Delivered()) <= lx.Delivered()
      invariant spec == G.CommaLoop(lx.src, lx.Delivered(), k, items)
      decreases |lx.src| - lx.Delivered()
    {
      var peeked := lx.PeekToken();
      if peeked == Some(Ok(Comma)) {
        G.CommaLoopStep(lx.src, lx.Delivered(), k, items);
        var _ := ConsumeToken(lx, [Comma]);  // cannot fail: the comma was just peeked
        var node :- LowerItem(lx, k);
        items := items + [node];
      } else if peeked.Some? && peeked.value.Err? {
        return Err(G.LexFailure(peeked.value.error));
      } else {
        break;  // any other token, or end of input
      }
    }
    return Ok(items);
  }

  /** Calls the item parser `k` stands for (the function pointer of comma_list). */
  method LowerItem(lx: Lexer, k: G.LowerFn) returns (r: Result<G.Item, G.ParseError>)
    requires lx.Valid()
    modifies lx
    ensures lx.Valid()
    ensures Agrees(r, G.LowerItem(lx.src, old(lx.Delivered()), k), lx.Delivered())
    decreases |lx.src| - lx.Delivered(), 22
  {
    match k
    case AocFn =>
      var n :- Aoc(lx);
      return Ok(G.NodeItem(n));
    case WhenLowerFn =>
      var arm :- WhenLower(lx);
      return Ok(G.ArmItem(arm.0, arm.1));
    case ClauseFn =>
      var n :- Clause(lx);
      return Ok(G.NodeItem(n));
    case ExtractIdentFn =>
      var name :- ExtractIdent(lx);
      return Ok(G.NameItem(name));
  }

  method ExtractIdent(lx: Lexer) returns (r: Result<string, G.ParseError>)
    requires lx.Valid()
    modifies lx
    ensures lx.Valid()
    ensures Agrees(r, G.ExtractIdent(lx.src, old(lx.Delivered())), lx.Delivered())
  {
    var token :- ExtractToken(lx);
    if token.Identifier? {
      return Ok(token.name);
    } else {
      return Err(G.ExpectIdent(token));
    }
  }

  method ExtractToken(lx: Lexer) returns (r: Result<Token, G.ParseError>)
    requires lx.Valid()
    modifies lx
    ensures lx.Valid()
    ensures Agrees(r, G.ExtractToken(lx.src, old(lx.Delivered())), lx.Delivered())
    ensures lx.Delivered() == Min(old(lx.Delivered()) + 1, |lx.src|)
  {
    var t := lx.Next();
    match t
    case Some(Ok(token)) => r := Ok(token);
    case Some(Err(e)) => r := Err(G.ExtractLexFailure(e));
    case None => r := Err(G.NoNextToken);
  }

  /** Takes one token, matching or not, and fails when `expects` is non-empty and lacks it. */
  method ConsumeToken(lx: Lexer, expects: seq<Token>) returns (r: Result<Token, G.ParseError>)
    requires lx.Valid()
    modifies lx
    ensures lx.Valid()
    ensures Agrees(r, G.ConsumeToken(lx.src, old(lx.Delivered()), expects), lx.Delivered())
    ensures lx.Delivered() == Min(old(lx.Delivered()) + 1, |lx.src|)
  {
    var token :- ExtractToken(lx);
    if |expects| == 0 || token in expects {
      return Ok(token);
    } else {
      return Err(G.UnexpectedToken(expects, token));
    }
  }
}
