/**
 * Every production of the parser accounts for exactly the tokens it consumes:
 * when it succeeds from position `i` and stops at `next`, the tree it built
 * prints back (Unparsing.Unparse) as the tokens `ts[i..next]`, in order, none
 * dropped and none invented.  The lemmas follow the call structure of the
 * productions and use the same termination measure.
 */
module ParseCoverage {
  import opened Wrappers
  import opened Tokens
  import Ast
  import G = Grammar
  import opened Unparsing

  /** The results `ts[i..j]` are the tokens `toks`, all lexed without error. */
  ghost predicate Spans(ts: seq<TokenResult>, i: nat, j: nat, toks: seq<Token>) {
    i <= j <= |ts| && ts[i..j] == Oks(toks)
  }

  lemma OksAppend(a: seq<Token>, b: seq<Token>)
    ensures Oks(a + b) == Oks(a) + Oks(b)
  {
    assert forall k :: 0 <= k < |a + b| ==> Oks(a + b)[k] == (Oks(a) + Oks(b))[k];
  }

  /** Two adjacent spans make one. */
  lemma Chain(ts: seq<TokenResult>, i: nat, j: nat, k: nat, a: seq<Token>, b: seq<Token>)
    requires Spans(ts, i, j, a) && Spans(ts, j, k, b)
    ensures Spans(ts, i, k, a + b)
  {
    assert ts[i..k] == ts[i..j] + ts[j..k];
    OksAppend(a, b);
  }

  /** A token the parser took without error spans one position. */
  lemma One(ts: seq<TokenResult>, i: nat, t: Token)
    requires i < |ts| && ts[i] == Ok(t)
    ensures Spans(ts, i, i + 1, [t])
  {
  }

  /** A span followed by the rest of a printed sequence covers all of it. */
  lemma Prefix(ts: seq<TokenResult>, i: nat, j: nat, n: nat, a: seq<Token>, c: seq<Token>)
    requires Spans(ts, i, j, a) && j <= n <= |ts| && Oks(c) == Oks(a) + ts[j..n]
    ensures Spans(ts, i, n, c)
  {
    assert ts[i..n] == ts[i..j] + ts[j..n];
  }

  lemma JoinSnoc(parts: seq<seq<Token>>, p: seq<Token>)
    requires parts != []
    ensures Join(parts + [p]) == Join(parts) + [Comma] + p
  {
    assert (parts + [p])[..|parts|] == parts;
  }

  lemma ItemsTokensSnoc(items: seq<G.Item>, it: G.Item)
    ensures ItemsTokens(items + [it]) == ItemsTokens(items) + [ItemTokens(it)]
  {
  }

  lemma NodesTokens(items: seq<G.Item>)
    requires forall k :: 0 <= k < |items| ==> items[k].NodeItem?
    ensures var nodes := G.Nodes(items);
      seq(|nodes|, k requires 0 <= k < |nodes| => Unparse(nodes[k])) == ItemsTokens(items)
  {
  }

  lemma ArmsTokens(items: seq<G.Item>)
    requires forall k :: 0 <= k < |items| ==> items[k].ArmItem?
    ensures var arms := G.Arms(items);
      seq(|arms|, k requires 0 <= k < |arms| => Unparse(arms[k].0) + [RThinArr] + Unparse(arms[k].1)) == ItemsTokens(items)
  {
  }

  lemma NamesTokens(items: seq<G.Item>)
    requires forall k :: 0 <= k < |items| ==> items[k].NameItem?
    ensures var names := G.Names(items);
      seq(|names|, k requires 0 <= k < |names| => [Identifier(names[k])]) == ItemsTokens(items)
  {
  }

  /**
   * Taking a separator and then a span `b` extends what has been printed so
   * far: the step both loops (binary_pratt's and comma_list's) repeat.
   */
  lemma Extend(ts: seq<TokenResult>, j: nat, m: nat, n: nat, a: seq<Token>, sep: Token, b: seq<Token>, c: seq<Token>)
    requires j < m <= n <= |ts| && ts[j] == Ok(sep) && Spans(ts, j + 1, m, b)
    requires Oks(c) == Oks(a + [sep] + b) + ts[m..n]
    ensures Oks(c) == Oks(a) + ts[j..n]
  {
    OksAppend(a + [sep], b);
    OksAppend(a, [sep]);
    assert ts[j..n] == [ts[j]] + ts[j + 1..m] + ts[m..n];
  }

  /** A bracketed span: an opening token, a span, and a closing token. */
  lemma Wrap(ts: seq<TokenResult>, i: nat, j: nat, open: Token, inner: seq<Token>, close: Token)
    requires i < |ts| && ts[i] == Ok(open) && Spans(ts, i + 1, j, inner) && j < |ts| && ts[j] == Ok(close)
    ensures Spans(ts, i, j + 1, [open] + inner + [close])
  {
    Chain(ts, i, i + 1, j, [open], inner);
    Chain(ts, i, j, j + 1, [open] + inner, [close]);
  }

  /** The tokens of `if c then t else f`, put together from the spans of its parts. */
  lemma IfParts(ts: seq<TokenResult>, i: nat, c: nat, e: nat, n: nat, cond: Ast.AstNode, t: Ast.AstNode, f: Ast.AstNode)
    requires i < |ts| && ts[i] == Ok(Token.If) && Spans(ts, i + 1, c, Unparse(cond))
    requires c < |ts| && ts[c] == Ok(Then) && Spans(ts, c + 1, e, Unparse(t))
    requires e < |ts| && ts[e] == Ok(Else) && Spans(ts, e + 1, n, Unparse(f))
    ensures Spans(ts, i, n, Unparse(Ast.If(cond, t, f)))
  {
    var u := [Token.If] + Unparse(cond);
    Chain(ts, i, i + 1, c, [Token.If], Unparse(cond));
    Chain(ts, i, c, c + 1, u, [Then]);
    Chain(ts, i, c + 1, e, u + [Then], Unparse(t));
    Chain(ts, i, e, e + 1, u + [Then] + Unparse(t), [Else]);
    Chain(ts, i, e + 1, n, u + [Then] + Unparse(t) + [Else], Unparse(f));
  }

  /** The tokens of `fn params -> body`, put together from the spans of its parts. */
  lemma FnParts(ts: seq<TokenResult>, i: nat, j: nat, n: nat, params: seq<G.Item>, body: Ast.AstNode)
    requires forall k :: 0 <= k < |params| ==> params[k].NameItem?
    requires i < |ts| && ts[i] == Ok(Fn) && Spans(ts, i + 1, j, Join(ItemsTokens(params)))
    requires j < |ts| && ts[j] == Ok(RThinArr) && Spans(ts, j + 1, n, Unparse(body))
    ensures Spans(ts, i, n, Unparse(Ast.Primary(Ast.Fn(G.Names(params), body))))
  {
    var ps := Join(ItemsTokens(params));
    NamesTokens(params);
    Chain(ts, i, i + 1, j, [Fn], ps);
    Chain(ts, i, j, j + 1, [Fn] + ps, [RThinArr]);
    Chain(ts, i, j + 1, n, [Fn] + ps + [RThinArr], Unparse(body));
  }

  /** The tokens of `name(args)`, put together from the spans of its parts. */
  lemma CallParts(ts: seq<TokenResult>, i: nat, j: nat, x: string, args: seq<G.Item>)
    requires forall k :: 0 <= k < |args| ==> args[k].NodeItem?
    requires i + 1 < |ts| && ts[i] == Ok(Identifier(x)) && ts[i + 1] == Ok(LRoundParen)
    requires Spans(ts, i + 2, j, Join(ItemsTokens(args))) && j < |ts| && ts[j] == Ok(RRountParen)
    ensures Spans(ts, i, j + 1, Unparse(Ast.Call(x, G.Nodes(args))))
  {
    var inner := Join(ItemsTokens(args));
    NodesTokens(args);
    Wrap(ts, i + 1, j, LRoundParen, inner, RRountParen);
    One(ts, i, Identifier(x));
    Chain(ts, i, i + 1, j + 1, [Identifier(x)], [LRoundParen] + inner + [RRountParen]);
    assert [Identifier(x)] + ([LRoundParen] + inner + [RRountParen]) == [Identifier(x), LRoundParen] + inner + [RRountParen];
  }

  /** One more `, item` round of comma_list's loop. */
  lemma CommaStep(ts: seq<TokenResult>, j: nat, m: nat, n: nat, acc: seq<G.Item>, item: G.Item, result: seq<G.Item>)
    requires acc != [] && j < m <= n <= |ts| && ts[j] == Ok(Comma) && Spans(ts, j + 1, m, ItemTokens(item))
    requires Oks(Join(ItemsTokens(result))) == Oks(Join(ItemsTokens(acc + [item]))) + ts[m..n]
    ensures Oks(Join(ItemsTokens(result))) == Oks(Join(ItemsTokens(acc))) + ts[j..n]
  {
    ItemsTokensSnoc(acc, item);
    JoinSnoc(ItemsTokens(acc), ItemTokens(item));
    Extend(ts, j, m, n, Join(ItemsTokens(acc)), Comma, ItemTokens(item), Join(ItemsTokens(result)));
  }

  // What a successful production consumed, step by step.

  lemma MultiShape(ts: seq<TokenResult>, i: nat)
    requires i <= |ts|
    ensures var r := G.Multi(ts, i); r.Ok? ==>
      i < |ts| && ts[i] == Ok(Do) && G.CommaList(ts, i + 1, G.AocFn, End).Ok? &&
      var items := G.CommaList(ts, i + 1, G.AocFn, End).value;
      items.next < |ts| && ts[items.next] == Ok(End) &&
      r.value == G.Parsed(Ast.Multi(G.Nodes(items.result)), items.next + 1)
  {
  }

  lemma AssignShape(ts: seq<TokenResult>, i: nat)
    requires i <= |ts|
    ensures var r := G.Assign(ts, i); r.Ok? ==>
      i + 1 < |ts| && ts[i].Ok? && ts[i].value.Identifier? && ts[i + 1] == Ok(Equal) && G.Clause(ts, i + 2).Ok? &&
      var body := G.Clause(ts, i + 2).value;
      r.value == G.Parsed(Ast.Assign(ts[i].value.name, body.result), body.next)
  {
  }

  lemma IfShape(ts: seq<TokenResult>, i: nat)
    requires i <= |ts|
    ensures var r := G.If(ts, i); r.Ok? ==>
      i < |ts| && ts[i] == Ok(Token.If) && G.Clause(ts, i + 1).Ok? &&
      var c := G.Clause(ts, i + 1).value;
      c.next < |ts| && ts[c.next] == Ok(Then) && G.Multi(ts, c.next + 1).Ok? &&
      var t := G.Multi(ts, c.next + 1).value;
      t.next < |ts| && ts[t.next] == Ok(Else) && G.Multi(ts, t.next + 1).Ok? &&
      var f := G.Multi(ts, t.next + 1).value;
      r.value == G.Parsed(Ast.If(c.result, t.result, f.result), f.next)
  {
  }

  lemma WhenShape(ts: seq<TokenResult>, i: nat)
    requires i <= |ts|
    ensures var r := G.When(ts, i); r.Ok? ==>
      i < |ts| && ts[i] == Ok(Token.When) && G.CommaList(ts, i + 1, G.WhenLowerFn, End).Ok? &&
      var arms := G.CommaList(ts, i + 1, G.WhenLowerFn, End).value;
      arms.next < |ts| && ts[arms.next] == Ok(End) &&
      r.value == G.Parsed(Ast.When(G.Arms(arms.result)), arms.next + 1)
  {
  }

  lemma WhenLowerShape(ts: seq<TokenResult>, i: nat)
    requires i <= |ts|
    ensures var r := G.WhenLower(ts, i); r.Ok? ==>
      G.Clause(ts, i).Ok? &&
      var c := G.Clause(ts, i).value;
      c.next < |ts| && ts[c.next] == Ok(RThinArr) && G.Multi(ts, c.next + 1).Ok? &&
      var body := G.Multi(ts, c.next + 1).value;
      r.value == G.Parsed((c.result, body.result), body.next)
  {
  }

  lemma CallShape(ts: seq<TokenResult>, i: nat)
    requires i <= |ts|
    ensures var r := G.Call(ts, i); r.Ok? ==>
      i + 1 < |ts| && ts[i].Ok? && ts[i].value.Identifier? && ts[i + 1] == Ok(LRoundParen) &&
      G.CommaList(ts, i + 2, G.ClauseFn, RRountParen).Ok? &&
      var args := G.CommaList(ts, i + 2, G.ClauseFn, RRountParen).value;
      args.next < |ts| && ts[args.next] == Ok(RRountParen) &&
      r.value == G.Parsed(Ast.Call(ts[i].value.name, G.Nodes(args.result)), args.next + 1)
  {
  }

  lemma FnDeclShape(ts: seq<TokenResult>, i: nat)
    requires i <= |ts|
    ensures var r := G.FnDecl(ts, i); r.Ok? ==>
      i < |ts| && ts[i] == Ok(Fn) && G.CommaList(ts, i + 1, G.ExtractIdentFn, RThinArr).Ok? &&
      var ps := G.CommaList(ts, i + 1, G.ExtractIdentFn, RThinArr).value;
      ps.next < |ts| && ts[ps.next] == Ok(RThinArr) && G.Expr(ts, ps.next + 1).Ok? &&
      var body := G.Expr(ts, ps.next + 1).value;
      r.value == G.Parsed(Ast.Primary(Ast.Fn(G.Names(ps.result), body.result)), body.next)
  {
  }

  // The coverage lemmas, one per production.

  lemma {:induction false} ParseSpans(ts: seq<TokenResult>)
    ensures var r := G.Parse(ts); r.Ok? ==> Spans(ts, 0, r.value.next, Unparse(r.value.result))
  {
    ExprSpans(ts, 0);
  }

  lemma {:induction false} ExprSpans(ts: seq<TokenResult>, i: nat)
    requires i <= |ts|
    ensures var r := G.Expr(ts, i); r.Ok? ==> Spans(ts, i, r.value.next, Unparse(r.value.result))
    decreases |ts| - i, 19
  {
    if Lookahead(ts, i) == Some(Ok(Do)) {
      MultiSpans(ts, i);
    } else {
      AocSpans(ts, i);
    }
  }

  lemma {:induction false} MultiSpans(ts: seq<TokenResult>, i: nat)
    requires i <= |ts|
    ensures var r := G.Multi(ts, i); r.Ok? ==> Spans(ts, i, r.value.next, Unparse(r.value.result))
    decreases |ts| - i, 18
  {
    if G.Multi(ts, i).Ok? {
      MultiShape(ts, i);
      var items := G.CommaList(ts, i + 1, G.AocFn, End).value;
      CommaListSpans(ts, i + 1, G.AocFn, End);
      NodesTokens(items.result);
      Wrap(ts, i, items.next, Do, Join(ItemsTokens(items.result)), End);
    }
  }

  lemma {:induction false} AocSpans(ts: seq<TokenResult>, i: nat)
    requires i <= |ts|
    ensures var r := G.Aoc(ts, i); r.Ok? ==> Spans(ts, i, r.value.next, Unparse(r.value.result))
    decreases |ts| - i, 16
  {
    if Lookahead(ts, i + 1) == Some(Ok(Equal)) {
      AssignSpans(ts, i);
    } else {
      ClauseSpans(ts, i);
    }
  }

  lemma {:induction false} AssignSpans(ts: seq<TokenResult>, i: nat)
    requires i <= |ts|
    ensures var r := G.Assign(ts, i); r.Ok? ==> Spans(ts, i, r.value.next, Unparse(r.value.result))
    decreases |ts| - i, 15
  {
    if G.Assign(ts, i).Ok? {
      AssignShape(ts, i);
      var x := ts[i].value.name;
      var body := G.Clause(ts, i + 2).value;
      ClauseSpans(ts, i + 2);
      One(ts, i, Identifier(x));
      One(ts, i + 1, Equal);
      Chain(ts, i, i + 1, i + 2, [Identifier(x)], [Equal]);
      Chain(ts, i, i + 2, body.next, [Identifier(x), Equal], Unparse(body.result));
    }
  }

  lemma {:induction false} ClauseSpans(ts: seq<TokenResult>, i: nat)
    requires i <= |ts|
    ensures var r := G.Clause(ts, i); r.Ok? ==> Spans(ts, i, r.value.next, Unparse(r.value.result))
    decreases |ts| - i, 14
  {
    BinarySpans(ts, i);
  }

  lemma {:induction false} BinarySpans(ts: seq<TokenResult>, i: nat)
    requires i <= |ts|
    ensures var r := G.Binary(ts, i); r.Ok? ==> Spans(ts, i, r.value.next, Unparse(r.value.result))
    decreases |ts| - i, 13
  {
    BinaryPrattSpans(ts, i, 0);
  }

  lemma {:induction false} BinaryPrattSpans(ts: seq<TokenResult>, i: nat, minBp: nat)
    requires i <= |ts|
    ensures var r := G.BinaryPratt(ts, i, minBp); r.Ok? ==> Spans(ts, i, r.value.next, Unparse(r.value.result))
    decreases |ts| - i, 12
  {
    var lhs := G.BinaryLower(ts, i);
    if lhs.Ok? {
      BinaryLowerSpans(ts, i);
      var j := lhs.value.next;
      PrattLoopSpans(ts, j, minBp, lhs.value.result);
      var r := G.PrattLoop(ts, j, minBp, lhs.value.result);
      if r.Ok? {
        Prefix(ts, i, j, r.value.next, Unparse(lhs.value.result), Unparse(r.value.result));
      }
    }
  }

  lemma {:induction false} PrattLoopSpans(ts: seq<TokenResult>, j: nat, minBp: nat, acc: Ast.AstNode)
    requires j <= |ts|
    ensures var r := G.PrattLoop(ts, j, minBp, acc);
      r.Ok? ==> (j <= r.value.next <= |ts| && Oks(Unparse(r.value.result)) == Oks(Unparse(acc)) + ts[j..r.value.next])
    decreases |ts| - j, 12
  {
    if j < |ts| && ts[j].Ok? && G.InfixBindingPower(ts[j].value).Some? && minBp <= G.InfixBindingPower(ts[j].value).value.0 {
      var op := ts[j].value;
      G.PrattLoopStep(ts, j, minBp, acc);
      var rhs := G.BinaryPratt(ts, j + 1, G.InfixBindingPower(op).value.1);
      if rhs.Ok? {
        BinaryPrattSpans(ts, j + 1, G.InfixBindingPower(op).value.1);
        var m := rhs.value.next;
        var bin := Ast.Binary(acc, op, rhs.value.result);
        PrattLoopSpans(ts, m, minBp, bin);
        var r := G.PrattLoop(ts, m, minBp, bin);
        if r.Ok? {
          Extend(ts, j, m, r.value.next, Unparse(acc), op, Unparse(rhs.value.result), Unparse(r.value.result));
        }
      }
    }
  }

  lemma {:induction false} BinaryLowerSpans(ts: seq<TokenResult>, i: nat)
    requires i <= |ts|
    ensures var r := G.BinaryLower(ts, i); r.Ok? ==> Spans(ts, i, r.value.next, Unparse(r.value.result))
    decreases |ts| - i, 11
  {
    if Lookahead(ts, i) == Some(Ok(Token.If)) {
      IfSpans(ts, i);
    } else if Lookahead(ts, i) == Some(Ok(Token.When)) {
      WhenSpans(ts, i);
    } else {
      PrimarySpans(ts, i);
    }
  }

  lemma {:induction false} IfSpans(ts: seq<TokenResult>, i: nat)
    requires i <= |ts|
    ensures var r := G.If(ts, i); r.Ok? ==> Spans(ts, i, r.value.next, Unparse(r.value.result))
    decreases |ts| - i, 10
  {
    var r := G.If(ts, i);
    if r.Ok? {
      IfShape(ts, i);
      var c := G.Clause(ts, i + 1).value;
      var t := G.Multi(ts, c.next + 1).value;
      var f := G.Multi(ts, t.next + 1).value;
      ClauseSpans(ts, i + 1);
      MultiSpans(ts, c.next + 1);
      MultiSpans(ts, t.next + 1);
      IfJoin(ts, i, r, c, t, f);
    }
  }

  /** Congruence step of IfSpans, kept apart so that it sees only the parts and not the grammar. */
  lemma IfJoin(ts: seq<TokenResult>, i: nat, r: G.Parsing<Ast.AstNode>, c: G.Parsed<Ast.AstNode>, t: G.Parsed<Ast.AstNode>, f: G.Parsed<Ast.AstNode>)
    requires r.Ok? && r.value == G.Parsed(Ast.If(c.result, t.result, f.result), f.next)
    requires i < |ts| && ts[i] == Ok(Token.If) && Spans(ts, i + 1, c.next, Unparse(c.result))
    requires c.next < |ts| && ts[c.next] == Ok(Then) && Spans(ts, c.next + 1, t.next, Unparse(t.result))
    requires t.next < |ts| && ts[t.next] == Ok(Else) && Spans(ts, t.next + 1, f.next, Unparse(f.result))
    ensures Spans(ts, i, r.value.next, Unparse(r.value.result))
  {
    IfParts(ts, i, c.next, t.next, f.next, c.result, t.result, f.result);
  }

  lemma {:induction false} WhenSpans(ts: seq<TokenResult>, i: nat)
    requires i <= |ts|
    ensures var r := G.When(ts, i); r.Ok? ==> Spans(ts, i, r.value.next, Unparse(r.value.result))
    decreases |ts| - i, 10
  {
    if G.When(ts, i).Ok? {
      WhenShape(ts, i);
      var arms := G.CommaList(ts, i + 1, G.WhenLowerFn, End).value;
      CommaListSpans(ts, i + 1, G.WhenLowerFn, End);
      ArmsTokens(arms.result);
      Wrap(ts, i, arms.next, Token.When, Join(ItemsTokens(arms.result)), End);
    }
  }

  lemma {:induction false} WhenLowerSpans(ts: seq<TokenResult>, i: nat)
    requires i <= |ts|
    ensures var r := G.WhenLower(ts, i);
      r.Ok? ==> Spans(ts, i, r.value.next, Unparse(r.value.result.0) + [RThinArr] + Unparse(r.value.result.1))
    decreases |ts| - i, 21
  {
    if G.WhenLower(ts, i).Ok? {
      WhenLowerShape(ts, i);
      var c := G.Clause(ts, i).value;
      var body := G.Multi(ts, c.next + 1).value;
      ClauseSpans(ts, i);
      MultiSpans(ts, c.next + 1);
      One(ts, c.next, RThinArr);
      Chain(ts, i, c.next, c.next + 1, Unparse(c.result), [RThinArr]);
      Chain(ts, i, c.next + 1, body.next, Unparse(c.result) + [RThinArr], Unparse(body.result));
    }
  }

  lemma {:induction false} CallSpans(ts: seq<TokenResult>, i: nat)
    requires i <= |ts|
    ensures var r := G.Call(ts, i); r.Ok? ==> Spans(ts, i, r.value.next, Unparse(r.value.result))
    decreases |ts| - i, 8
  {
    if G.Call(ts, i).Ok? {
      CallShape(ts, i);
      var args := G.CommaList(ts, i + 2, G.ClauseFn, RRountParen).value;
      CommaListSpans(ts, i + 2, G.ClauseFn, RRountParen);
      CallParts(ts, i, args.next, ts[i].value.name, args.result);
    }
  }

  lemma {:induction false} PrimarySpans(ts: seq<TokenResult>, i: nat)
    requires i <= |ts|
    ensures var r := G.Primary(ts, i); r.Ok? ==> Spans(ts, i, r.value.next, Unparse(r.value.result))
    decreases |ts| - i, 9
  {
    var peeked := Lookahead(ts, i);
    if peeked == Some(Ok(Fn)) {
      FnDeclSpans(ts, i);
    } else if peeked.Some? && peeked.value.Ok? && peeked.value.value.Identifier? {
      if Lookahead(ts, i + 1) == Some(Ok(LRoundParen)) {
        CallSpans(ts, i);
      } else {
        One(ts, i, peeked.value.value);
      }
    } else if i < |ts| && ts[i].Ok? {
      One(ts, i, ts[i].value);
    }
  }

  lemma {:induction false} FnDeclSpans(ts: seq<TokenResult>, i: nat)
    requires i <= |ts|
    ensures var r := G.FnDecl(ts, i); r.Ok? ==> Spans(ts, i, r.value.next, Unparse(r.value.result))
    decreases |ts| - i, 8
  {
    if G.FnDecl(ts, i).Ok? {
      FnDeclShape(ts, i);
      var ps := G.CommaList(ts, i + 1, G.ExtractIdentFn, RThinArr).value;
      var body := G.Expr(ts, ps.next + 1).value;
      CommaListSpans(ts, i + 1, G.ExtractIdentFn, RThinArr);
      ExprSpans(ts, ps.next + 1);
      FnParts(ts, i, ps.next, body.next, ps.result, body.result);
    }
  }

  lemma {:induction false} CommaListSpans(ts: seq<TokenResult>, i: nat, k: G.LowerFn, end: Token)
    requires i <= |ts|
    ensures var r := G.CommaList(ts, i, k, end);
      r.Ok? ==> Spans(ts, i, r.value.next, Join(ItemsTokens(r.value.result)))
    decreases |ts| - i, 23
  {
    if Lookahead(ts, i) != Some(Ok(end)) {
      var first := G.LowerItem(ts, i, k);
      if first.Ok? {
        LowerItemSpans(ts, i, k);
        var j := first.value.next;
        var acc := [first.value.result];
        CommaLoopSpans(ts, j, k, acc);
        var r := G.CommaLoop(ts, j, k, acc);
        assert G.CommaList(ts, i, k, end) == r;
        if r.Ok? {
          assert ItemsTokens(acc) == [ItemTokens(first.value.result)];
          Prefix(ts, i, j, r.value.next, ItemTokens(first.value.result), Join(ItemsTokens(r.value.result)));
        }
      }
    }
  }

  lemma {:induction false} CommaLoopSpans(ts: seq<TokenResult>, j: nat, k: G.LowerFn, acc: seq<G.Item>)
    requires j <= |ts| && acc != []
    ensures var r := G.CommaLoop(ts, j, k, acc);
      r.Ok? ==> (j <= r.value.next <= |ts| &&
        Oks(Join(ItemsTokens(r.value.result))) == Oks(Join(ItemsTokens(acc))) + ts[j..r.value.next])
    decreases |ts| - j, 23
  {
    if j < |ts| && ts[j] == Ok(Comma) {
      G.CommaLoopStep(ts, j, k, acc);
      var item := G.LowerItem(ts, j + 1, k);
      if item.Ok? {
        LowerItemSpans(ts, j + 1, k);
        var m := item.value.next;
        var acc' := acc + [item.value.result];
        CommaLoopSpans(ts, m, k, acc');
        var r := G.CommaLoop(ts, m, k, acc');
        if r.Ok? {
          CommaStep(ts, j, m, r.value.next, acc, item.value.result, r.value.result);
        }
      }
    }
  }

  lemma {:induction false} LowerItemSpans(ts: seq<TokenResult>, i: nat, k: G.LowerFn)
    requires i <= |ts|
    ensures var r := G.LowerItem(ts, i, k); r.Ok? ==> Spans(ts, i, r.value.next, ItemTokens(r.value.result))
    decreases |ts| - i, 22
  {
    match k
    case AocFn => AocSpans(ts, i);
    case WhenLowerFn => WhenLowerSpans(ts, i);
    case ClauseFn => ClauseSpans(ts, i);
    case ExtractIdentFn =>
      if i < |ts| && ts[i].Ok? {
        One(ts, i, ts[i].value);
      }
  }
}
