/**
 * Properties of the parser functions in Grammar: the binding-power table,
 * where the Pratt loop stops, grouping and associativity of binary
 * operators, the dispatch of `primary` and `assign`, where comma-separated
 * lists stop, and which block forms need `do`.
 */
module GrammarProperties {
  import opened Wrappers
  import opened Tokens
  import Ast
  import opened Grammar

  /** The binding powers of the arithmetic operators: `* /` bind tighter than `+ -`. */
  lemma ArithmeticBindingPowers()
    ensures InfixBindingPower(Plus) == InfixBindingPower(Minus) == Some((1, 2))
    ensures InfixBindingPower(Star) == InfixBindingPower(Slash) == Some((3, 4))
  {
  }

  /** The binding powers of the logical and comparison operators, tighter than all arithmetic. */
  lemma LogicalBindingPowers()
    ensures InfixBindingPower(And) == InfixBindingPower(Or) == Some((5, 6))
    ensures InfixBindingPower(Less) == InfixBindingPower(LessEqual) == Some((7, 8))
    ensures InfixBindingPower(Greater) == InfixBindingPower(GreaterEqual) == Some((7, 8))
    ensures InfixBindingPower(EqualEqual) == InfixBindingPower(BangEqual) == Some((9, 10))
  {
  }

  /**
   * The Pratt loop returns what it has built, consuming nothing, exactly when
   * the lookahead is end of input, a token without binding power, or an
   * operator whose left power is below `minBp`; a lex error in the lookahead
   * is passed on.
   */
  lemma PrattLoopStops(ts: seq<TokenResult>, j: nat, minBp: nat, acc: Ast.AstNode)
    requires j <= |ts|
    ensures var peeked := Lookahead(ts, j);
      var stops := peeked.None? || (peeked.value.Ok? && (InfixBindingPower(peeked.value.value).None? ||
                                                         InfixBindingPower(peeked.value.value).value.0 < minBp));
      (stops <==> PrattLoop(ts, j, minBp, acc) == Ok(Parsed(acc, j))) &&
      (peeked.Some? && peeked.value.Err? ==> PrattLoop(ts, j, minBp, acc) == Err(LexFailure(peeked.value.error)))
  {
    if j < |ts| && ts[j].Ok? && InfixBindingPower(ts[j].value).Some? && minBp <= InfixBindingPower(ts[j].value).value.0 {
      PrattLoopStep(ts, j, minBp, acc);
    }
  }

  /** `n` is `acc` with zero or more binary operations folded onto its left. */
  predicate BuiltOn(n: Ast.AstNode, acc: Ast.AstNode) {
    n == acc || (n.Binary? && BuiltOn(n.left, acc))
  }

  /** What is built on `acc op rhs` is built on `acc`. */
  lemma {:induction false} BuiltOnFold(n: Ast.AstNode, acc: Ast.AstNode, op: Token, rhs: Ast.AstNode)
    requires BuiltOn(n, Ast.Binary(acc, op, rhs))
    ensures BuiltOn(n, acc)
  {
    if n != Ast.Binary(acc, op, rhs) {
      BuiltOnFold(n.left, acc, op, rhs);
    }
  }

  /** The loop of binary_pratt only ever folds new operations onto the left operand it was given. */
  lemma {:induction false} PrattLoopBuiltOn(ts: seq<TokenResult>, j: nat, minBp: nat, acc: Ast.AstNode)
    requires j <= |ts|
    ensures PrattLoop(ts, j, minBp, acc).Ok? ==> BuiltOn(PrattLoop(ts, j, minBp, acc).value.result, acc)
    decreases |ts| - j
  {
    if j < |ts| && ts[j].Ok? && InfixBindingPower(ts[j].value).Some? && minBp <= InfixBindingPower(ts[j].value).value.0 {
      PrattLoopStep(ts, j, minBp, acc);
      var op := ts[j].value;
      var rhs := BinaryPratt(ts, j + 1, InfixBindingPower(op).value.1);
      if rhs.Ok? {
        var bin := Ast.Binary(acc, op, rhs.value.result);
        PrattLoopBuiltOn(ts, rhs.value.next, minBp, bin);
        var r := PrattLoop(ts, rhs.value.next, minBp, bin);
        if r.Ok? {
          BuiltOnFold(r.value.result, acc, op, rhs.value.result);
        }
      }
    } else {
      PrattLoopStops(ts, j, minBp, acc);
    }
  }

  /** The left binding power of an operator. */
  function Lbp(op: Token): nat
    requires op in Operators
  {
    InfixBindingPower(op).value.0
  }

  /**
   * Every binary operation in `n` is grouped by binding power: a binary right
   * operand binds strictly tighter than its parent (equal powers group to the
   * left), and a binary left operand binds at least as tightly.  Operands that
   * are not binary operations count as atoms.
   */
  predicate Prec(n: Ast.AstNode) {
    n.Binary? ==>
      n.op in Operators && Prec(n.left) && Prec(n.right) &&
      (n.left.Binary? ==> n.left.op in Operators && Lbp(n.left.op) >= Lbp(n.op)) &&
      (n.right.Binary? ==> n.right.op in Operators && Lbp(n.right.op) > Lbp(n.op))
  }

  /** At `j` comes nothing the loop of binary_pratt at `minBp` would take: end of input, a lex error, a non-operator or a weaker operator. */
  predicate StopsAt(ts: seq<TokenResult>, j: nat, minBp: nat) {
    j >= |ts| || ts[j].Err? || ts[j].value !in Operators || Lbp(ts[j].value) < minBp
  }

  /**
   * Whatever binary_pratt builds at `minBp` is grouped by binding power, a
   * binary result has an operator of left power at least `minBp`, and it
   * stops only before a token it would not take.
   */
  lemma {:induction false} BinaryPrattPrec(ts: seq<TokenResult>, i: nat, minBp: nat)
    requires i <= |ts|
    ensures var r := BinaryPratt(ts, i, minBp);
      r.Ok? ==> Prec(r.value.result) && StopsAt(ts, r.value.next, minBp) &&
                (r.value.result.Binary? ==> r.value.result.op in Operators && Lbp(r.value.result.op) >= minBp)
    decreases |ts| - i, 1
  {
    var lhs := BinaryLower(ts, i);
    if lhs.Ok? {
      PrattLoopPrec(ts, lhs.value.next, minBp, lhs.value.result);
    }
  }

  /** The loop keeps the grouping of its accumulator when the next operator binds no tighter than the accumulator's own. */
  lemma {:induction false} PrattLoopPrec(ts: seq<TokenResult>, j: nat, minBp: nat, acc: Ast.AstNode)
    requires j <= |ts| && Prec(acc)
    requires acc.Binary? ==> acc.op in Operators && Lbp(acc.op) >= minBp && StopsAt(ts, j, Lbp(acc.op) + 1)
    ensures var r := PrattLoop(ts, j, minBp, acc);
      r.Ok? ==> Prec(r.value.result) && StopsAt(ts, r.value.next, minBp) &&
                (r.value.result.Binary? ==> r.value.result.op in Operators && Lbp(r.value.result.op) >= minBp)
    decreases |ts| - j, 0
  {
    if j < |ts| && ts[j].Ok? && InfixBindingPower(ts[j].value).Some? && minBp <= InfixBindingPower(ts[j].value).value.0 {
      var op := ts[j].value;
      PrattLoopStep(ts, j, minBp, acc);
      var rhs := BinaryPratt(ts, j + 1, InfixBindingPower(op).value.1);
      if rhs.Ok? {
        BinaryPrattPrec(ts, j + 1, InfixBindingPower(op).value.1);
        var bin := Ast.Binary(acc, op, rhs.value.result);
        assert Prec(bin);
        PrattLoopPrec(ts, rhs.value.next, minBp, bin);
      }
    } else {
      PrattLoopStops(ts, j, minBp, acc);
    }
  }

  /** A clause, and so every operand chain the parser builds, is grouped by binding power. */
  lemma ClausePrec(ts: seq<TokenResult>, i: nat)
    requires i <= |ts|
    ensures Clause(ts, i).Ok? ==> Prec(Clause(ts, i).value.result)
  {
    BinaryPrattPrec(ts, i, 0);
  }

  /** A loop round that takes an operator consumes it and at least one more token. */
  lemma PrattLoopTakes(ts: seq<TokenResult>, j: nat, minBp: nat, acc: Ast.AstNode)
    requires j < |ts| && ts[j].Ok? && InfixBindingPower(ts[j].value).Some?
    requires minBp <= InfixBindingPower(ts[j].value).value.0
    ensures PrattLoop(ts, j, minBp, acc).Ok? ==>
      j + 2 <= PrattLoop(ts, j, minBp, acc).value.next && PrattLoop(ts, j, minBp, acc).value.result.Binary?
  {
    PrattLoopStep(ts, j, minBp, acc);
    var op := ts[j].value;
    var rhs := BinaryPratt(ts, j + 1, InfixBindingPower(op).value.1);
    if rhs.Ok? {
      var r := PrattLoop(ts, rhs.value.next, minBp, Ast.Binary(acc, op, rhs.value.result));
      assert r.Ok? ==> r.value.result == Ast.Binary(acc, op, rhs.value.result) || r.value.result.Binary?;
    }
  }

  /** The tokens that stand alone as an operand: literals and plain identifiers. */
  predicate IsAtom(t: Token) {
    t.Nil? || t.Bool? || t.Number? || t.Str? || t.Identifier?
  }

  /** The node an atom stands for. */
  function AtomNode(t: Token): (n: Ast.AstNode)
    requires IsAtom(t)
    ensures t.Identifier? <==> n.Variable?
  {
    if t.Identifier? then Ast.Variable(t.name) else Ast.Primary(LiteralValue(t).value)
  }

  /** An atom not followed by `(` is an operand of one token. */
  lemma AtomOperand(ts: seq<TokenResult>, i: nat, t: Token)
    requires i < |ts| && ts[i] == Ok(t) && IsAtom(t) && Lookahead(ts, i + 1) != Some(Ok(LRoundParen))
    ensures BinaryLower(ts, i) == Ok(Parsed(AtomNode(t), i + 1))
  {
    assert Primary(ts, i) == Ok(Parsed(AtomNode(t), i + 1));
  }

  /** An atom followed by end of input, or by a token the loop at `minBp` does not take, is the whole operand. */
  lemma OneOperand(ts: seq<TokenResult>, i: nat, minBp: nat, b: Token)
    requires i < |ts| && ts[i] == Ok(b) && IsAtom(b)
    requires Lookahead(ts, i + 1).None? ||
      (ts[i + 1].Ok? && ts[i + 1].value != LRoundParen &&
       (ts[i + 1].value !in Operators || InfixBindingPower(ts[i + 1].value).value.0 < minBp))
    ensures BinaryPratt(ts, i, minBp) == Ok(Parsed(AtomNode(b), i + 1))
  {
    AtomOperand(ts, i, b);
    PrattLoopStops(ts, i + 1, minBp, AtomNode(b));
  }

  /** `a op b` followed by end of input or a token that is not an operator. */
  lemma {:induction false} TwoOperands(ts: seq<TokenResult>, i: nat, minBp: nat, a: Token, op: Token, b: Token)
    requires i + 2 < |ts| && ts[i] == Ok(a) && ts[i + 1] == Ok(op) && ts[i + 2] == Ok(b)
    requires IsAtom(a) && IsAtom(b) && op in Operators && minBp <= InfixBindingPower(op).value.0
    requires Lookahead(ts, i + 3).None? || (ts[i + 3].Ok? && ts[i + 3].value !in Operators && ts[i + 3].value != LRoundParen)
    ensures BinaryPratt(ts, i, minBp) == Ok(Parsed(Ast.Binary(AtomNode(a), op, AtomNode(b)), i + 3))
  {
    AtomOperand(ts, i, a);
    PrattLoopStep(ts, i + 1, minBp, AtomNode(a));
    var rbp := InfixBindingPower(op).value.1;
    OneOperand(ts, i + 2, rbp, b);
    PrattLoopStops(ts, i + 3, minBp, Ast.Binary(AtomNode(a), op, AtomNode(b)));
  }

  /** The operators in `a o1 b o2 c` group by binding power, equal powers to the left. */
  function Grouped(a: Ast.AstNode, o1: Token, b: Ast.AstNode, o2: Token, c: Ast.AstNode): Ast.AstNode
    requires o1 in Operators && o2 in Operators
  {
    if InfixBindingPower(o2).value.0 > InfixBindingPower(o1).value.0 then
      Ast.Binary(a, o1, Ast.Binary(b, o2, c))
    else
      Ast.Binary(Ast.Binary(a, o1, b), o2, c)
  }

  /** Input whose first token is not `do` and whose second is not `=` is parsed as one binary expression. */
  lemma ParseIsBinary(ts: seq<TokenResult>)
    requires Lookahead(ts, 0) != Some(Ok(Do)) && Lookahead(ts, 1) != Some(Ok(Equal))
    ensures Parse(ts) == BinaryPratt(ts, 0, 0)
  {
    calc {
      Parse(ts);
      Expr(ts, 0);
      Single(ts, 0);
      Aoc(ts, 0);
      Clause(ts, 0);
      Binary(ts, 0);
      BinaryPratt(ts, 0, 0);
    }
  }

  /** When `o2` binds tighter than `o1`, `a o1 b o2 c` groups as `a o1 (b o2 c)`. */
  lemma {:induction false} GroupsRight(a: Token, o1: Token, b: Token, o2: Token, c: Token)
    requires IsAtom(a) && IsAtom(b) && IsAtom(c) && o1 in Operators && o2 in Operators
    requires InfixBindingPower(o2).value.0 > InfixBindingPower(o1).value.0
    ensures Parse([Ok(a), Ok(o1), Ok(b), Ok(o2), Ok(c)]) ==
      Ok(Parsed(Ast.Binary(AtomNode(a), o1, Ast.Binary(AtomNode(b), o2, AtomNode(c))), 5))
  {
    var ts: seq<TokenResult> := [Ok(a), Ok(o1), Ok(b), Ok(o2), Ok(c)];
    var A, B, C := AtomNode(a), AtomNode(b), AtomNode(c);
    ParseIsBinary(ts);
    AtomOperand(ts, 0, a);
    PrattLoopStep(ts, 1, 0, A);
    // b o2 c is taken whole by the recursive call for the right operand of o1
    TwoOperands(ts, 2, InfixBindingPower(o1).value.1, b, o2, c);
    PrattLoopStops(ts, 5, 0, Ast.Binary(A, o1, Ast.Binary(B, o2, C)));
  }

  /** When `o2` binds no tighter than `o1`, `a o1 b o2 c` groups as `(a o1 b) o2 c`. */
  lemma {:induction false} GroupsLeft(a: Token, o1: Token, b: Token, o2: Token, c: Token)
    requires IsAtom(a) && IsAtom(b) && IsAtom(c) && o1 in Operators && o2 in Operators
    requires InfixBindingPower(o2).value.0 <= InfixBindingPower(o1).value.0
    ensures Parse([Ok(a), Ok(o1), Ok(b), Ok(o2), Ok(c)]) ==
      Ok(Parsed(Ast.Binary(Ast.Binary(AtomNode(a), o1, AtomNode(b)), o2, AtomNode(c)), 5))
  {
    var ts: seq<TokenResult> := [Ok(a), Ok(o1), Ok(b), Ok(o2), Ok(c)];
    ParseIsBinary(ts);
    GroupsLeftIn(ts, a, o1, b, o2, c);
  }

  /** The body of GroupsLeft, for any five results that are these tokens. */
  lemma {:induction false} GroupsLeftIn(ts: seq<TokenResult>, a: Token, o1: Token, b: Token, o2: Token, c: Token)
    requires |ts| == 5 && ts[0] == Ok(a) && ts[1] == Ok(o1) && ts[2] == Ok(b) && ts[3] == Ok(o2) && ts[4] == Ok(c)
    requires IsAtom(a) && IsAtom(b) && IsAtom(c) && o1 in Operators && o2 in Operators
    requires InfixBindingPower(o2).value.0 <= InfixBindingPower(o1).value.0
    ensures BinaryPratt(ts, 0, 0) ==
      Ok(Parsed(Ast.Binary(Ast.Binary(AtomNode(a), o1, AtomNode(b)), o2, AtomNode(c)), 5))
  {
    var A, B := AtomNode(a), AtomNode(b);
    AtomOperand(ts, 0, a);
    PrattLoopStep(ts, 1, 0, A);
    // the recursive call for the right operand of o1 stops before o2 ...
    OneOperand(ts, 2, InfixBindingPower(o1).value.1, b);
    // ... and the outer loop takes it
    LastOperand(ts, 3, Ast.Binary(A, o1, B), o2, c);
  }

  /** The outer loop at `acc`, with `op c` left before the end of input, takes both and ends. */
  lemma LastOperand(ts: seq<TokenResult>, j: nat, acc: Ast.AstNode, op: Token, c: Token)
    requires j + 2 == |ts| && ts[j] == Ok(op) && ts[j + 1] == Ok(c) && op in Operators && IsAtom(c)
    ensures PrattLoop(ts, j, 0, acc) == Ok(Parsed(Ast.Binary(acc, op, AtomNode(c)), j + 2))
  {
    PrattLoopStep(ts, j, 0, acc);
    OneOperand(ts, j + 1, InfixBindingPower(op).value.1, c);
    PrattLoopStops(ts, j + 2, 0, Ast.Binary(acc, op, AtomNode(c)));
  }

  /**
   * Precedence and associativity: `a o1 b o2 c` groups to the right exactly
   * when `o2` binds tighter than `o1`, and to the left otherwise (in
   * particular for operators of equal power).
   */
  lemma ThreeOperands(a: Token, o1: Token, b: Token, o2: Token, c: Token)
    requires IsAtom(a) && IsAtom(b) && IsAtom(c) && o1 in Operators && o2 in Operators
    ensures Parse([Ok(a), Ok(o1), Ok(b), Ok(o2), Ok(c)]) ==
      Ok(Parsed(Grouped(AtomNode(a), o1, AtomNode(b), o2, AtomNode(c)), 5))
  {
    if InfixBindingPower(o2).value.0 > InfixBindingPower(o1).value.0 {
      GroupsRight(a, o1, b, o2, c);
    } else {
      GroupsLeft(a, o1, b, o2, c);
    }
  }

  /** `a - b - c` groups as `(a - b) - c`. */
  lemma SubtractionGroupsLeft(a: string, b: string, c: string)
    ensures Parse([Ok(Identifier(a)), Ok(Minus), Ok(Identifier(b)), Ok(Minus), Ok(Identifier(c))]) ==
      Ok(Parsed(Ast.Binary(Ast.Binary(Ast.Variable(a), Minus, Ast.Variable(b)), Minus, Ast.Variable(c)), 5))
  {
    GroupsLeft(Identifier(a), Minus, Identifier(b), Minus, Identifier(c));
  }

  /** `1 + 2 * 3` groups as `1 + (2 * 3)`. */
  lemma ProductBindsTighter()
    ensures Parse([Ok(Number(1)), Ok(Plus), Ok(Number(2)), Ok(Star), Ok(Number(3))]) ==
      Ok(Parsed(Ast.Binary(Ast.Primary(Ast.Number(1)), Plus,
                           Ast.Binary(Ast.Primary(Ast.Number(2)), Star, Ast.Primary(Ast.Number(3)))), 5))
  {
    assert InfixBindingPower(Plus) == Some((1, 2)) && InfixBindingPower(Star) == Some((3, 4));
    GroupsRight(Number(1), Plus, Number(2), Star, Number(3));
  }

  /** `12 + 2 / 3` groups as `12 + (2 / 3)`. */
  lemma QuotientBindsTighter()
    ensures Parse([Ok(Number(12)), Ok(Plus), Ok(Number(2)), Ok(Slash), Ok(Number(3))]) ==
      Ok(Parsed(Ast.Binary(Ast.Primary(Ast.Number(12)), Plus,
                           Ast.Binary(Ast.Primary(Ast.Number(2)), Slash, Ast.Primary(Ast.Number(3)))), 5))
  {
    assert InfixBindingPower(Plus) == Some((1, 2)) && InfixBindingPower(Slash) == Some((3, 4));
    GroupsRight(Number(12), Plus, Number(2), Slash, Number(3));
  }

  /**
   * `primary` dispatches on the next token: a plain identifier is a variable
   * of one token, a literal is its value, and every other token is an error
   * (as are a lex error and end of input).
   */
  lemma PrimaryDispatch(ts: seq<TokenResult>, i: nat)
    requires i <= |ts|
    ensures i == |ts| ==> Primary(ts, i) == Err(NoNextToken)
    ensures i < |ts| && ts[i].Err? ==> Primary(ts, i) == Err(ExtractLexFailure(ts[i].error))
    ensures i < |ts| && ts[i].Ok? ==>
      var t := ts[i].value;
      (t == Fn ==> Primary(ts, i) == FnDecl(ts, i)) &&
      (t.Identifier? && Lookahead(ts, i + 1) == Some(Ok(LRoundParen)) ==> Primary(ts, i) == Call(ts, i)) &&
      (t.Identifier? && Lookahead(ts, i + 1) != Some(Ok(LRoundParen)) ==>
         Primary(ts, i) == Ok(Parsed(Ast.Variable(t.name), i + 1))) &&
      (t.Nil? ==> Primary(ts, i) == Ok(Parsed(Ast.Primary(Ast.Nil), i + 1))) &&
      (t.Bool? ==> Primary(ts, i) == Ok(Parsed(Ast.Primary(Ast.Bool(t.b)), i + 1))) &&
      (t.Number? ==> Primary(ts, i) == Ok(Parsed(Ast.Primary(Ast.Number(t.n)), i + 1))) &&
      (t.Str? ==> Primary(ts, i) == Ok(Parsed(Ast.Primary(Ast.Str(t.s)), i + 1))) &&
      (!IsAtom(t) && t != Fn ==> Primary(ts, i) == Err(InvalidToken(t)))
  {
  }

  /** `assign`: an identifier, `=`, and a clause for the body; nothing else starts one. */
  lemma AssignParts(ts: seq<TokenResult>, i: nat)
    requires i <= |ts|
    ensures i < |ts| && ts[i].Ok? && !ts[i].value.Identifier? ==> Assign(ts, i) == Err(NeedIdent(ts[i].value))
    ensures i + 1 < |ts| && ts[i].Ok? && ts[i].value.Identifier? && ts[i + 1] == Ok(Equal) ==>
      Assign(ts, i) ==
        (var body := Clause(ts, i + 2);
         if body.Err? then Err(body.error) else Ok(Parsed(Ast.Assign(ts[i].value.name, body.value.result), body.value.next)))
  {
  }

  /**
   * comma_list's loop stops at the first token that is not a comma, and at
   * end of input, without consuming it; a lex error there is passed on.
   */
  lemma CommaLoopStops(ts: seq<TokenResult>, j: nat, k: LowerFn, acc: seq<Item>)
    requires j <= |ts|
    ensures j == |ts| || (ts[j].Ok? && ts[j].value != Comma) <==> CommaLoop(ts, j, k, acc) == Ok(Parsed(acc, j))
    ensures j < |ts| && ts[j].Err? ==> CommaLoop(ts, j, k, acc) == Err(LexFailure(ts[j].error))
  {
    if j < |ts| && ts[j] == Ok(Comma) {
      CommaLoopStep(ts, j, k, acc);
    }
  }

  /** A list that comma_list returns is never followed by a comma. */
  lemma {:induction false} CommaLoopEndsOffComma(ts: seq<TokenResult>, j: nat, k: LowerFn, acc: seq<Item>)
    requires j <= |ts|
    ensures CommaLoop(ts, j, k, acc).Ok? ==> Lookahead(ts, CommaLoop(ts, j, k, acc).value.next) != Some(Ok(Comma))
    decreases |ts| - j
  {
    if j < |ts| && ts[j] == Ok(Comma) {
      CommaLoopStep(ts, j, k, acc);
      var item := LowerItem(ts, j + 1, k);
      if item.Ok? {
        CommaLoopEndsOffComma(ts, item.value.next, k, acc + [item.value.result]);
      }
    }
  }

  /** A list of several items is separated by commas: each item after the first follows one. */
  lemma {:induction false} CommaLoopItems(ts: seq<TokenResult>, j: nat, k: LowerFn, acc: seq<Item>)
    requires j <= |ts|
    ensures CommaLoop(ts, j, k, acc).Ok? && |CommaLoop(ts, j, k, acc).value.result| > |acc| ==>
      j < |ts| && ts[j] == Ok(Comma)
  {
  }

  /** No item of a block starts with `end`, so a comma right before a block's `end` is an error. */
  lemma EndStartsNoItem(ts: seq<TokenResult>, i: nat)
    requires i < |ts| && ts[i] == Ok(End)
    ensures Aoc(ts, i).Err?
  {
    PrimaryDispatch(ts, i);
    assert BinaryLower(ts, i) == Primary(ts, i) == Err(InvalidToken(End));
    assert Clause(ts, i) == BinaryPratt(ts, i, 0);
  }

  /** A block does not allow a trailing comma: `do item, end` fails. */
  lemma NoTrailingComma(ts: seq<TokenResult>, j: nat, acc: seq<Item>)
    requires j + 1 < |ts| && ts[j] == Ok(Comma) && ts[j + 1] == Ok(End)
    ensures CommaLoop(ts, j, AocFn, acc).Err?
  {
    CommaLoopStep(ts, j, AocFn, acc);
    EndStartsNoItem(ts, j + 1);
  }

  /** `multi`, and so every branch of `if` and every arm body of `when`, must start with `do`. */
  lemma MultiNeedsDo(ts: seq<TokenResult>, i: nat)
    requires i <= |ts|
    ensures Lookahead(ts, i) != Some(Ok(Do)) ==> Multi(ts, i).Err?
    ensures i < |ts| && ts[i].Ok? && ts[i].value != Do ==> Multi(ts, i) == Err(UnexpectedToken([Do], ts[i].value))
  {
  }

  /** `if c then` followed by anything but a `do` block fails. */
  lemma IfBranchNeedsDo(ts: seq<TokenResult>, i: nat)
    requires i <= |ts|
    ensures Grammar.If(ts, i).Ok? ==>
      var c := Clause(ts, i + 1).value.next;
      c + 1 < |ts| && ts[c] == Ok(Then) && ts[c + 1] == Ok(Do)
  {
  }

  /** `expr` is a block exactly when it starts with `do`, and a single clause or assignment otherwise. */
  lemma ExprDispatch(ts: seq<TokenResult>, i: nat)
    requires i <= |ts|
    ensures Lookahead(ts, i) == Some(Ok(Do)) ==> Expr(ts, i) == Multi(ts, i)
    ensures Lookahead(ts, i) != Some(Ok(Do)) ==> Expr(ts, i) == Aoc(ts, i)
  {
  }
}
