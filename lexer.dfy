/**
 * The two-slot lookahead buffer of src/lexer.rs.  The underlying token stream
 * is the sequence `src` of the results it yields, read from position `pos`;
 * reading past the end keeps yielding `None`.
 */
module Lexing {
  import opened Wrappers
  import opened Tokens

  function Min(a: int, b: int): int {
    if a < b then a else b
  }

  /** 1 when a slot holds a result taken from the stream, 0 when it is empty or holds end of input. */
  function Held(slot: Option<Option<TokenResult>>): nat {
    if slot.Some? && slot.value.Some? then 1 else 0
  }

  /** 1 when a slot is filled (with a result or with end of input). */
  function Filled(slot: Option<Option<TokenResult>>): nat {
    if slot.Some? then 1 else 0
  }

  class Lexer {
    const src: seq<TokenResult>
    var pos: nat
    var peek1: Option<Option<TokenResult>>
    var peek2: Option<Option<TokenResult>>

    /**
     * The slots hold, in order, what the stream yields just after the last
     * result handed out by Next; the second slot is filled only when the
     * first is; and the stream has been read exactly as far as the filled
     * slots need (it stays put at its end).
     */
    ghost predicate Valid()
      reads this
    {
      var d := pos - Held(peek1) - Held(peek2);
      Held(peek1) + Held(peek2) <= pos <= |src| &&
      (peek2.Some? ==> peek1.Some?) &&
      (peek1.Some? ==> peek1.value == Lookahead(src, d)) &&
      (peek2.Some? ==> peek2.value == Lookahead(src, d + 1)) &&
      pos == Min(d + Filled(peek1) + Filled(peek2), |src|)
    }

    /** How many results of the stream Next has handed out so far. */
    ghost function Delivered(): (d: nat)
      reads this
      requires Valid()
      ensures d <= |src|
      ensures d <= pos <= d + 2
    {
      pos - Held(peek1) - Held(peek2)
    }

    constructor (source: seq<TokenResult>)
      ensures Valid()
      ensures src == source && pos == 0
      ensures peek1 == None && peek2 == None
      ensures Delivered() == 0
    {
      src := source;
      pos := 0;
      peek1 := None;
      peek2 := None;
    }

    /** The underlying stream's `next`. */
    method StreamNext() returns (r: Option<TokenResult>)
      modifies this`pos
      ensures r == Lookahead(src, old(pos))
      ensures pos == if old(pos) < |src| then old(pos) + 1 else old(pos)
    {
      if pos < |src| {
        r := Some(src[pos]);
        pos := pos + 1;
      } else {
        r := None;
      }
    }

    method PeekToken() returns (r: Option<TokenResult>)
      requires Valid()
      modifies this
      ensures Valid()
      ensures Delivered() == old(Delivered())
      ensures r == Lookahead(src, Delivered())
      ensures peek1 == Some(r)
      ensures old(peek1).Some? ==> pos == old(pos) && peek1 == old(peek1) && peek2 == old(peek2)
      ensures old(peek1).None? ==> peek2 == None
    {
      if peek1.None? {
        var t := StreamNext();
        peek1 := Some(t);
      }
      r := peek1.value;
    }

    method PeekTwoToken() returns (r: Option<TokenResult>)
      requires Valid()
      modifies this
      ensures Valid()
      ensures Delivered() == old(Delivered())
      ensures r == Lookahead(src, Delivered() + 1)
      ensures peek1 == Some(Lookahead(src, Delivered())) && peek2 == Some(r)
      ensures old(peek2).Some? ==> pos == old(pos) && peek1 == old(peek1) && peek2 == old(peek2)
    {
      if peek2.None? {
        var _ := PeekToken();
        var t := StreamNext();
        peek2 := Some(t);
      }
      r := peek2.value;
    }

    method PeekTokenFlatten() returns (r: Option<Token>)
      requires Valid()
      modifies this
      ensures Valid()
      ensures Delivered() == old(Delivered())
      ensures r.Some? <==> Lookahead(src, Delivered()).Some? && Lookahead(src, Delivered()).value.Ok?
      ensures r.Some? ==> Lookahead(src, Delivered()) == Some(Ok(r.value))
    {
      var t := PeekToken();
      match t
      case Some(Ok(tok)) => r := Some(tok);
      case _ => r := None;
    }

    method PeekTwoTokenFlatten() returns (r: Option<Token>)
      requires Valid()
      modifies this
      ensures Valid()
      ensures Delivered() == old(Delivered())
      ensures r.Some? <==> Lookahead(src, Delivered() + 1).Some? && Lookahead(src, Delivered() + 1).value.Ok?
      ensures r.Some? ==> Lookahead(src, Delivered() + 1) == Some(Ok(r.value))
    {
      var t := PeekTwoToken();
      match t
      case Some(Ok(tok)) => r := Some(tok);
      case _ => r := None;
    }

    /** The iterator's `next`: the buffered results first, then the stream. */
    method Next() returns (r: Option<TokenResult>)
      requires Valid()
      modifies this
      ensures Valid()
      ensures r == Lookahead(src, old(Delivered()))
      ensures Delivered() == Min(old(Delivered()) + 1, |src|)
      ensures old(peek1).Some? ==> peek1 == old(peek2) && peek2 == None && pos == old(pos)
      ensures old(peek1).None? ==> peek1 == None && peek2 == None
    {
      if peek1.Some? {
        r := peek1.value;
        peek1 := peek2;
        peek2 := None;
      } else {
        r := StreamNext();
      }
    }
  }

  /** Peeking twice and then taking yields the same result three times. */
  method PeekTwiceThenNext(lx: Lexer) returns (a: Option<TokenResult>, b: Option<TokenResult>, c: Option<TokenResult>)
    requires lx.Valid()
    modifies lx
    ensures lx.Valid()
    ensures a == b == c == Lookahead(lx.src, old(lx.Delivered()))
  {
    a := lx.PeekToken();
    b := lx.PeekToken();
    c := lx.Next();
  }

  /** After a two-token peek, two takes return what the two peeks show, in order. */
  method PeekTwoThenNextTwice(lx: Lexer)
    returns (first: Option<TokenResult>, second: Option<TokenResult>, n1: Option<TokenResult>, n2: Option<TokenResult>)
    requires lx.Valid()
    modifies lx
    ensures lx.Valid()
    ensures n1 == first && n2 == second
  {
    second := lx.PeekTwoToken();
    first := lx.PeekToken();
    n1 := lx.Next();
    n2 := lx.Next();
  }

  /** A call a client makes on the lexer. */
  datatype Op = PeekOne | PeekTwo | Take

  /** The number of takes in a sequence of calls. */
  function Takes(ops: seq<Op>): nat {
    if ops == [] then 0 else Takes(ops[..|ops| - 1]) + (if ops[|ops| - 1] == Take then 1 else 0)
  }

  /**
   * Runs any interleaving of peeks and takes.  The takes hand out the stream's
   * results in order, none skipped and none repeated.
   */
  method Drive(lx: Lexer, ops: seq<Op>) returns (taken: seq<Option<TokenResult>>)
    requires lx.Valid()
    modifies lx
    ensures lx.Valid()
    ensures |taken| == Takes(ops)
    ensures forall k :: 0 <= k < |taken| ==> taken[k] == Lookahead(lx.src, old(lx.Delivered()) + k)
    ensures lx.Delivered() == Min(old(lx.Delivered()) + |taken|, |lx.src|)
  {
    taken := [];
    for n := 0 to |ops|
      invariant lx.Valid()
      invariant |taken| == Takes(ops[..n])
      invariant forall k :: 0 <= k < |taken| ==> taken[k] == Lookahead(lx.src, old(lx.Delivered()) + k)
      invariant lx.Delivered() == Min(old(lx.Delivered()) + |taken|, |lx.src|)
    {
      assert ops[..n + 1][..n] == ops[..n];
      match ops[n]
      case PeekOne =>
        var _ := lx.PeekToken();
      case PeekTwo =>
        var _ := lx.PeekTwoToken();
      case Take =>
        var t := lx.Next();
        taken := taken + [t];
    }
    assert ops[..|ops|] == ops;
  }
}
