# fpl front end: lookahead lexer and Pratt parser, in Dafny

This project models the front end of the fpl interpreter:

- **Lexer.** The two-slot lookahead buffer `Lexer` of `src/lexer.rs` wraps a token stream. It offers `peek_token`, `peek_two_token`, their `_flatten` variants, and the iterator's `next`.
- **Parser.** The recursive-descent and Pratt parser of `src/parser.rs` pulls tokens from that lexer and builds an `AstNode`.

Files and modules:

- `wrappers.dfy` (`Wrappers`): `Option` and `Result`. `Result` supports the `:-` operator, which stands for Rust's `?`.
- `tokens.dfy` (`Tokens`): the token type. It includes the variants `src/parser.rs` uses but `src/token.rs` lacks: `Then`, `When`, `RThinArr`, `LRoundParen`, `RRountParen`, `Comma`, `Less`, `LessEqual`, `Greater` and `GreaterEqual`. `Lookahead(ts, k)` is what a stream of results `ts` yields at position `k`.
- `ast.dfy` (`Ast`): `Value` and `AstNode`. Their shape follows the constructors `src/parser.rs` builds, not the outdated `src/ast.rs`.
- `lexer.dfy` (`Lexing`): the class `Lexer`.
  - The underlying stream is a given sequence of results `src` plus a read position `pos`. Reading past the end keeps yielding `None`.
  - The two slots `peek1` and `peek2` are updated in place, as in the source.
  - The ghost `Delivered()` counts the results `next` has handed out. `Valid()` ties the slots to the stream.
  - `Drive` runs any interleaving of peeks and takes, and proves that the takes return the stream in order.
- `grammar.dfy` (`Grammar`): every parser function as a pure function of the results `ts` and the position `i` of the next result.
  - A success is `Parsed(result, next)`, where `next` is the position after the consumed tokens.
  - A failure is a `ParseError` constructor, one per `Err` the source builds.
  - The loops of `binary_pratt` and `comma_list` are the recursive functions `PrattLoop` and `CommaLoop`. The proof helpers `PrattLoopStep` and `CommaLoopStep` unfold one round of each for the proofs that use them.
  - `comma_list`'s function parameter becomes the tag `LowerFn` (`aoc`, `when_lower`, `clause`, `extract_ident`). What it builds becomes an `Item`.
- `parser.dfy` (`Parser`): the parser as it runs. Each method takes the shared `Lexer` and consumes tokens from it, with `while` loops in `BinaryPratt` and in `CommaLoop`, the loop of `comma_list`, which `CommaList` enters after the first item. Each method is proved to `Agree` with the `Grammar` function of the same name:
  - the same result or the same error;
  - on success, the lexer has handed out exactly the tokens the function says were consumed.
- `unparse.dfy` (`Unparsing`): a printer from trees back to the concrete syntax the code accepts.
- `coverage.dfy` (`ParseCoverage`): proves for every production that a successful parse from `i` to `next` prints back as exactly the tokens `ts[i..next]`.
- `properties.dfy` (`GrammarProperties`): proves the binding-power table, where the Pratt loop stops and that it folds onto its left operand, that every tree it builds, of any length, is grouped by binding power (a tighter operator groups first, equal powers group to the left), the grouping of three operands in full, the dispatch of `primary` and `expr`, where comma lists stop, that a block takes no trailing comma, and that blocks need `do`. The dispatch of `aoc` on the second lookahead is stated by the contract of `Grammar.Aoc`.

The concrete syntax is the one the code accepts, which differs from the usual description of the language in these points:

- A block is `do item, …, item end`, with no trailing comma, and may be empty (`do end`).
- An `if` is `if clause then do … end else do … end`, with no closing `end`. Each branch must be a `do` block.
- A `when` arm is `clause -> do … end`. Arms are separated by commas, and the whole `when` is closed by `end`.
- Call arguments are clauses, so they cannot be assignments or blocks.
- There is no grouping with parentheses and no unary operator.
- `parse` returns after the first expression and does not check that the input is exhausted. `Grammar.Parse` yields the position where it stopped, and trailing tokens are ignored.
- `and`/`or` bind more tightly than arithmetic, and comparisons more tightly still, as the code's table says.

## Model

| member | source | states |
|---|---|---|
| Lexing.Lexer.constructor | src/lexer.rs:11-17 | both lookahead slots start empty, and nothing has been read from the stream or handed out |
| Lexing.Lexer.StreamNext | src/lexer.rs:5 | the underlying stream yields the result at its position and advances, or yields `None` at its end and stays put |
| Lexing.Lexer.PeekToken | src/lexer.rs:33-38 | returns the result just after those handed out, without handing anything out; a filled slot is returned without touching the stream (end of input is memoised as `Some(None)`); the second slot is filled only when the first is |
| Lexing.Lexer.PeekTwoToken | src/lexer.rs:40-46 | returns the result one further on, fills the first slot before the second, hands nothing out, and reads nothing when the second slot is already filled |
| Lexing.Lexer.PeekTokenFlatten | src/lexer.rs:19-24 | `Some(t)` exactly when the next result is `Ok(t)`; a lex error and end of input both give `None` |
| Lexing.Lexer.PeekTwoTokenFlatten | src/lexer.rs:26-31 | `Some(t)` exactly when the result after the next is `Ok(t)`, `None` otherwise |
| Lexing.Lexer.Next | src/lexer.rs:52-59 | returns the next result of the stream, buffered or not, and advances by one (not past the end); a filled first slot is replaced by the second without reading the stream |
| Lexing.Lexer.Delivered | src/lexer.rs:6-7 | at most two results are buffered: the stream is read at most two positions past what `next` has returned |
| Lexing.PeekTwiceThenNext | src/lexer.rs:33-38 | peeking twice and then calling `next` yields the same result three times |
| Lexing.PeekTwoThenNextTwice | src/lexer.rs:40-58 | after `peek_two_token` and `peek_token`, two calls to `next` return first what `peek_token` showed and then what `peek_two_token` showed |
| Lexing.Drive | src/lexer.rs:33-59 | for any interleaving of peeks and takes, the takes return the stream's results in order, none skipped and none repeated |
| Grammar.InfixBindingPower | src/parser.rs:172-184 | an operator has a binding power exactly when it is one of the twelve binary operators, and then right power = left power + 1, with left powers from 1 to 9 |
| Grammar.ExtractToken | src/parser.rs:264-269 | succeeds exactly on a lexed token, consuming exactly that one; end of input and a lex error give their own errors |
| Grammar.ConsumeToken | src/parser.rs:271-281 | succeeds exactly when the token lexed and `expects` is empty or holds it; it takes one token either way, and a mismatch reports the expected tokens and the token found |
| Grammar.ExtractIdent | src/parser.rs:255-262 | succeeds exactly on an identifier and yields its name, consuming one token; any other token is reported |
| Grammar.Parse | src/parser.rs:51-53 | on success, consumes at least one token and no more than the input |
| Grammar.Expr | src/parser.rs:55-61 | the result is a block exactly when the first token is `do` |
| Grammar.Multi | src/parser.rs:63-68 | a success is a block that starts with `do` and ends with `end` |
| Grammar.Single | src/parser.rs:70-72 | a success consumes input and is never a block |
| Grammar.Aoc | src/parser.rs:74-80 | the result is an assignment exactly when the second lookahead is `=` |
| Grammar.Assign | src/parser.rs:82-93 | a success consumes `ident =` and then the body; a first token that is not an identifier is reported |
| Grammar.Clause | src/parser.rs:95-97 | a success is an operand or a binary operation |
| Grammar.If | src/parser.rs:99-111 | a success is an `If` whose branches are both blocks |
| Grammar.When | src/parser.rs:113-119 | a success is a `When` whose every arm body is a block |
| Grammar.WhenLower | src/parser.rs:121-126 | an arm's body is a block |
| Grammar.Call | src/parser.rs:128-137 | a success starts with `ident (` and ends with `)` |
| Grammar.Binary | src/parser.rs:139-141 | a success is an operand or a binary operation |
| Grammar.BinaryPratt | src/parser.rs:143-170 | a success consumes input and is an operand or a binary operation |
| Grammar.PrattLoop | src/parser.rs:146-167 | the loop never moves backwards, and returns its accumulator or a binary operation (that the operation is folded onto the accumulator is `GrammarProperties.PrattLoopBuiltOn`) |
| Grammar.BinaryLower | src/parser.rs:186-192 | a success is an operand: an `if`, a `when`, a literal, a variable or a call |
| Grammar.Primary | src/parser.rs:194-216 | a success is a literal, a variable or a call, and consumes input |
| Grammar.LiteralValue | src/parser.rs:207-214 | a token stands for a value exactly when it is `nil`, a boolean, a number or a string |
| Grammar.FnDecl | src/parser.rs:218-227 | a success starts with `fn` and is a function literal |
| Grammar.CommaList | src/parser.rs:229-253 | the list is empty exactly when `end_token` comes next, and then nothing is consumed; every item is of the kind its item parser builds |
| Grammar.CommaLoop | src/parser.rs:239-251 | the loop only appends to the items it has, and it consumes input exactly when it appends |
| Grammar.LowerItem | src/parser.rs:229-233 | the item parser consumes input and builds an item of its own kind |
| Parser.Parse | src/parser.rs:51-53 | run on a fresh lexer, returns what `Grammar.Parse` returns and has handed out exactly the tokens it consumed |
| Parser.Expr | src/parser.rs:55-61 | agrees with `Grammar.Expr` on the lexer's remaining results |
| Parser.Multi | src/parser.rs:63-68 | agrees with `Grammar.Multi` |
| Parser.Single | src/parser.rs:70-72 | agrees with `Grammar.Single` |
| Parser.Aoc | src/parser.rs:74-80 | agrees with `Grammar.Aoc`, deciding on the second lookahead |
| Parser.Assign | src/parser.rs:82-93 | agrees with `Grammar.Assign` |
| Parser.Clause | src/parser.rs:95-97 | agrees with `Grammar.Clause` |
| Parser.If | src/parser.rs:99-111 | agrees with `Grammar.If` |
| Parser.When | src/parser.rs:113-119 | agrees with `Grammar.When` |
| Parser.WhenLower | src/parser.rs:121-126 | agrees with `Grammar.WhenLower` |
| Parser.Call | src/parser.rs:128-137 | agrees with `Grammar.Call` |
| Parser.Binary | src/parser.rs:139-141 | agrees with `Grammar.Binary` |
| Parser.BinaryPratt | src/parser.rs:143-170 | the loop that rebinds `l` agrees with `Grammar.BinaryPratt`; its invariant is that the remaining loop computes the same as `Grammar.PrattLoop` from the current `l` |
| Parser.BinaryLower | src/parser.rs:186-192 | agrees with `Grammar.BinaryLower` |
| Parser.Primary | src/parser.rs:194-216 | agrees with `Grammar.Primary` |
| Parser.FnDecl | src/parser.rs:218-227 | agrees with `Grammar.FnDecl` |
| Parser.CommaList | src/parser.rs:229-253 | returns the empty list when `end_token` is peeked, and otherwise the first item followed by the loop; agrees with `Grammar.CommaList` |
| Parser.CommaLoop | src/parser.rs:238-252 | the loop that pushes into the item list agrees with `Grammar.CommaLoop`; its invariant is that the rest of the loop computes the same as `Grammar.CommaLoop` from the current items |
| Parser.LowerItem | src/parser.rs:231 | calling the item parser a tag stands for agrees with `Grammar.LowerItem` |
| Parser.ExtractIdent | src/parser.rs:255-262 | agrees with `Grammar.ExtractIdent` |
| Parser.ExtractToken | src/parser.rs:264-269 | agrees with `Grammar.ExtractToken` and always takes one result from the lexer (none at end of input) |
| Parser.ConsumeToken | src/parser.rs:271-281 | agrees with `Grammar.ConsumeToken` and takes one result whether or not it matches |
| ParseCoverage.ParseSpans | src/parser.rs:51-53 | the tree `parse` returns prints back as exactly the tokens it consumed, all lexed without error |
| ParseCoverage.ExprSpans | src/parser.rs:55-61 | what `expr` builds prints back as the tokens it consumed |
| ParseCoverage.MultiSpans | src/parser.rs:63-68 | a block prints back as `do`, its items separated by commas, and `end`: the tokens consumed |
| ParseCoverage.AocSpans | src/parser.rs:74-80 | what `aoc` builds prints back as the tokens it consumed |
| ParseCoverage.AssignSpans | src/parser.rs:82-93 | an assignment prints back as `ident =` and its body: the tokens consumed |
| ParseCoverage.ClauseSpans | src/parser.rs:95-97 | what `clause` builds prints back as the tokens it consumed |
| ParseCoverage.IfSpans | src/parser.rs:99-111 | an `if` prints back as `if cond then block else block`: the tokens consumed |
| ParseCoverage.WhenSpans | src/parser.rs:113-119 | a `when` prints back as `when`, its arms separated by commas, and `end` |
| ParseCoverage.WhenLowerSpans | src/parser.rs:121-126 | an arm prints back as `cond -> block` |
| ParseCoverage.CallSpans | src/parser.rs:128-137 | a call prints back as `ident (`, its arguments separated by commas, and `)` |
| ParseCoverage.BinarySpans | src/parser.rs:139-141 | what `binary` builds prints back as the tokens it consumed |
| ParseCoverage.BinaryPrattSpans | src/parser.rs:143-170 | a tree built by precedence climbing prints back, operands and operators in order, as the tokens consumed |
| ParseCoverage.PrattLoopSpans | src/parser.rs:146-167 | each round of the loop extends the printed accumulator by exactly the operator and right operand it consumed |
| ParseCoverage.BinaryLowerSpans | src/parser.rs:186-192 | what `binary_lower` builds prints back as the tokens it consumed |
| ParseCoverage.PrimarySpans | src/parser.rs:194-216 | a literal, variable, call or function literal prints back as the tokens `primary` consumed |
| ParseCoverage.FnDeclSpans | src/parser.rs:218-227 | a function literal prints back as `fn`, its parameters separated by commas, `->` and its body |
| ParseCoverage.CommaListSpans | src/parser.rs:229-253 | the items of a comma list, printed with commas between them, are exactly the tokens consumed |
| ParseCoverage.CommaLoopSpans | src/parser.rs:239-251 | each round of the loop extends the printed list by exactly the comma and the item it consumed |
| ParseCoverage.LowerItemSpans | src/parser.rs:231 | an item prints back as the tokens its item parser consumed |
| GrammarProperties.ArithmeticBindingPowers | src/parser.rs:175-176 | `+ -` have powers (1,2) and `* /` have (3,4) |
| GrammarProperties.LogicalBindingPowers | src/parser.rs:177-179 | `and or` have (5,6), `< <= > >=` have (7,8) and `== !=` have (9,10) |
| GrammarProperties.PrattLoopStops | src/parser.rs:147-159 | the loop returns its accumulator without consuming exactly when end of input, a token without binding power, or an operator below `min_bp` comes next; a lex error there is passed on |
| GrammarProperties.BinaryPrattPrec | src/parser.rs:143-184 | for every input, a tree built at `min_bp` satisfies `Prec` (in each binary operation a binary right operand binds strictly tighter and a binary left operand at least as tightly), a binary result has left power at least `min_bp`, and parsing stops only at end of input, a lex error, a non-operator or an operator of left power below `min_bp` |
| GrammarProperties.PrattLoopPrec | src/parser.rs:146-167 | the loop keeps `Prec` and the same stopping condition, given an accumulator whose own operator binds at least as tightly as the next operator |
| GrammarProperties.ClausePrec | src/parser.rs:95-97 | every clause the parser builds is grouped by binding power (`Prec`) |
| GrammarProperties.PrattLoopBuiltOn | src/parser.rs:145-169 | the loop's result is the left operand it was given with zero or more binary operations folded onto its left, since each round rebinds `l` to a `Binary` whose left operand is the old `l` |
| GrammarProperties.BuiltOnFold | src/parser.rs:162-166 | what is built on `acc op rhs` is built on `acc`, so each fold keeps the original left operand at the bottom-left |
| GrammarProperties.PrattLoopTakes | src/parser.rs:160-166 | a round that takes an operator consumes it and at least one more token, and builds a binary operation |
| GrammarProperties.AtomOperand | src/parser.rs:194-216 | a literal or identifier not followed by `(` is an operand of exactly one token |
| GrammarProperties.OneOperand | src/parser.rs:143-159 | an atom followed by end of input, or by a token other than `(` that the loop at `min_bp` does not take, is the whole operand |
| GrammarProperties.TwoOperands | src/parser.rs:143-170 | `a op b` followed by a non-operator or end of input gives `Binary(a, op, b)` and consumes three tokens |
| GrammarProperties.ParseIsBinary | src/parser.rs:51-97 | input whose first token is not `do` and whose second is not `=` is parsed by `binary_pratt` at power 0 |
| GrammarProperties.GroupsRight | src/parser.rs:157-166 | when `o2` binds tighter than `o1`, `a o1 b o2 c` groups as `a o1 (b o2 c)` |
| GrammarProperties.GroupsLeft | src/parser.rs:157-166 | when `o2` binds no tighter than `o1`, `a o1 b o2 c` groups as `(a o1 b) o2 c` |
| GrammarProperties.GroupsLeftIn | src/parser.rs:143-170 | for any five results that are `a o1 b o2 c` with `o2` no tighter than `o1`, `binary_pratt` at power 0 builds `(a o1 b) o2 c` over all five |
| GrammarProperties.LastOperand | src/parser.rs:153-169 | at power 0, `op c` at the end of input is taken whole and folded onto the accumulator |
| GrammarProperties.ThreeOperands | src/parser.rs:143-184 | `a o1 b o2 c` groups to the right exactly when `o2` binds tighter, and to the left otherwise, including for equal powers |
| GrammarProperties.SubtractionGroupsLeft | src/parser.rs:157-166 | `a - b - c` gives `Binary(Binary(a, -, b), -, c)` |
| GrammarProperties.ProductBindsTighter | src/parser.rs:157-166 | `1 + 2 * 3` gives `Binary(1, +, Binary(2, *, 3))` |
| GrammarProperties.QuotientBindsTighter | src/main.rs:13 | the demo input `12 + 2 / 3` groups the division first |
| GrammarProperties.PrimaryDispatch | src/parser.rs:194-216 | `fn` gives a function literal, `ident (` a call, a lone identifier a variable of one token, a literal its value, and every other token, a lex error or end of input the matching error |
| GrammarProperties.AssignParts | src/parser.rs:82-93 | `assign` fails on a first token that is not an identifier, and on `ident =` yields `Assign` with the body parsed by `clause` |
| GrammarProperties.CommaLoopStops | src/parser.rs:239-251 | the loop returns its items without consuming exactly at end of input or a token other than a comma; a lex error is passed on |
| GrammarProperties.CommaLoopEndsOffComma | src/parser.rs:239-251 | a list the loop returns is never followed by a comma |
| GrammarProperties.CommaLoopItems | src/parser.rs:240-245 | the loop adds items only after a comma |
| GrammarProperties.EndStartsNoItem | src/parser.rs:74-97 | `aoc` fails on `end`: it is neither an identifier for `assign` nor a token `primary` accepts |
| GrammarProperties.NoTrailingComma | src/parser.rs:239-249 | in a block's item list, a comma directly followed by `end` is an error, since after a comma `comma_list` always parses another item |
| GrammarProperties.MultiNeedsDo | src/parser.rs:63-64 | a block not starting with `do` fails, reporting the token found |
| GrammarProperties.IfBranchNeedsDo | src/parser.rs:99-105 | an `if` succeeds only when `then` is followed by `do` |
| GrammarProperties.ExprDispatch | src/parser.rs:55-61 | `expr` is `multi` exactly when the first token is `do`, and `aoc` otherwise |

## Left out

- Tokenizing (`src/token.rs`) is left out. It is generated by the `logos` derive macro from regular-expression attributes. The underlying stream is an arbitrary given sequence of token results.
- `src/token.rs` is not part of this model except as the `Token` datatype.
- The `f64` payload of `Token::Number` and `Value::Number` is an `int` placeholder. The parser only copies it, and no float parsing is modelled.
- `src/interpreter.rs`, `src/ast.rs` and `src/main.rs` are not part of this model. The evaluator is written against an older two-variant syntax tree. `main` is a demo driver; only its example input appears, in `GrammarProperties.QuotientBindsTighter`.
- Error message text is not modelled. Each `Err` the parser builds with `format!` is a `Grammar.ParseError` constructor that carries the tokens it names.
- The grammar sketch in the comment at the top of `src/parser.rs` is out of date, so the model follows the code.
- The lexer's lifetime parameter and the `clone` of a peeked result are not modelled; results are values.
- The `u8` type of `min_bp` becomes `nat`. Only the powers 0 to 10 ever occur, so no wrap-around can happen.
- The printer is a partner of the parser, not a claim about it. The model does not prove that parsing a printed tree gives the tree back, because without parentheses a printed tree can group differently.
