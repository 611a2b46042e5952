# S-expression parser of Ruschm, modelled in Dafny

This project models the recursive-descent parser of the Ruschm Scheme
interpreter (`src/parser.rs`). The parser reads a forward-only stream of
lexical tokens through a one-token lookahead and builds one syntax tree per
call of `parse`. A tree is an identifier, a number (kept as its literal text)
or a procedure call `(operator operand ...)`. The only error is
`SyntaxError { error: "Unmatched Parentheses!" }`.

The project has these parts:

- `ast.dfy` (module `Ast`) holds the tokens, the `Expression` tree, `SyntaxError` and its display text.
  The call constructor keeps the source's spelling, `ProcudureCall`.
- `grammar.dfy` (module `Grammar`) is the reference semantics. `Parse`,
  `ProcedureCall` and `Operands` are pure functions over the tokens not yet
  read. Each returns the parse result together with the tokens left unread, so
  errors and absent results also fix where the cursor ends. `Render` writes a
  tree back as tokens.
- `parser.dfy` (module `Parsing`) holds the parser object. Class `Parser` has the source's two
  fields: `current`, the lookahead, and `lexer`, the tokens the source has not
  yet handed out. Its methods `Parse`, `ProcedureCall`, `Advance` and `Generate`
  update them in place. `Parse` and `ProcedureCall` are proved to return what
  the reference functions of the same name return and to leave exactly the
  tokens they leave. `Advance` and `Generate` are proved to drop exactly the
  lookahead token, and the constructor to hold exactly the given tokens.
  `ProcedureCall` keeps the source's unbounded operand loop; its invariant
  says the loop finishes with the reference result.
- `properties.dfy` (module `Properties`) proves what the parser promises. It
  covers the behaviour for each lookahead, the error paths of a call, and an
  exact correspondence between trees and tokens: a parse delivers tree `e`
  and leaves `s` exactly when the stream is `Render(e) + s`. It also proves
  what happens on a stream cut short inside a call.
- `tests.dfy` (module `SourceTests`) restates the unit tests of `src/parser.rs`
  as methods. Each builds a parser object from the test's tokens and calls its
  `Parse`, and proves the result the test expects. It also has a client that
  reads two expressions from one parser.

A stream that ends inside an unclosed list is not always an error. When only
`(` tokens have been read, the innermost operator position finds nothing, and
an absent operator makes the whole call absent (`src/parser.rs:59-61`), so
the parse yields "no expression". `Properties.Truncated` states the exact
behaviour. A stream that stops partway through an expression's tokens yields
no expression when it holds only `(` tokens. Otherwise it yields the
unmatched-parentheses error. It never yields a tree.

## Model

| member | source | states |
|---|---|---|
| `Ast.Display` | src/parser.rs:20-24 | An error is displayed as the fixed prefix `Syntax error: ` followed by its message, which can be read back after the prefix. |
| `Grammar.Parse` | src/parser.rs:45-56 | A parse never leaves more tokens than it was given. A parse that delivers a tree has consumed at least one token. Every error it returns is the unmatched-parentheses error. |
| `Grammar.ProcedureCall` | src/parser.rs:58-79 | A call always consumes at least its `(`. A delivered result is a call node. Every error is the unmatched-parentheses error. |
| `Grammar.Operands` | src/parser.rs:63-76 | The operand loop never yields "no expression": it ends with a call node or an error. A call node has the given operator and keeps the operands already read as a prefix, in order. It never leaves more tokens than it was given, and success consumes at least the closing `)`. |
| `Parsing.Parser.constructor` | src/parser.rs:38-43 | The new parser holds the first token as lookahead, or none for an empty stream, and the remaining tokens are exactly the given ones. |
| `Parsing.Parser.Parse` | src/parser.rs:45-56 | The result and the tokens left after the call are those of the reference `Grammar.Parse` on the tokens left before it. |
| `Parsing.Parser.ProcedureCall` | src/parser.rs:58-79 | With `(` as lookahead, the result and the tokens left are those of the reference `Grammar.ProcedureCall`. The loop's invariant ties the operands read so far to that result. |
| `Parsing.Parser.Advance` | src/parser.rs:81-83 | Exactly the lookahead token is dropped. At the end of the stream nothing changes. |
| `Parsing.Parser.Generate` | src/parser.rs:85-88 | Returns the given tree and drops exactly the lookahead token. |
| `Properties.LeafLookahead` | src/parser.rs:48-49 | A number or identifier lookahead becomes the leaf with exactly that token's text, and exactly one token is consumed. |
| `Properties.EmptyStream` | src/parser.rs:54 | An exhausted stream yields "no expression" and leaves nothing. |
| `Properties.StopLookahead` | src/parser.rs:51-52 | An unrecognised token yields "no expression" without moving the cursor. A `)` lookahead is the unmatched-parentheses error, also without moving the cursor. |
| `Properties.OperatorPosition` | src/parser.rs:59-61 | If the operator position yields "no expression", the call yields "no expression" after consuming the `(`. An error at the operator position is passed on unchanged. |
| `Properties.EmptyCall` | src/parser.rs:51 | The empty list `()` is the unmatched-parentheses error, raised with the `)` still unread. |
| `Properties.OpenAtEnd` | src/parser.rs:54 | `(` at the end of the stream and `((` at the end of the stream both yield "no expression", not an error. |
| `Properties.OpenThenOther` | src/parser.rs:52 | `(` followed by an unrecognised token yields "no expression" and leaves that token as lookahead. |
| `Properties.OperandsExhausted` | src/parser.rs:69 | A stream that ends before the closing `)` of a call is the unmatched-parentheses error. |
| `Properties.OperandAbsent` | src/parser.rs:70-72 | An operand position that yields "no expression" is the unmatched-parentheses error. An unrecognised token there fails without being consumed. |
| `Properties.OperandError` | src/parser.rs:70-71 | An error while reading an operand ends the call with that same error and cursor. No partial tree is returned. |
| `Properties.ParseForward` | src/parser.rs:45-56 | The cursor never moves backward: whatever a parse returns, the tokens it leaves are a suffix of those it was given. |
| `Properties.ProcedureCallForward` | src/parser.rs:58-79 | Whatever call parsing returns, the tokens it leaves are a suffix of those it was given. |
| `Properties.OperandsForward` | src/parser.rs:63-76 | Whatever the operand loop returns, the tokens it leaves are a suffix of those it was given. |
| `Properties.RoundTrip` | src/parser.rs:45-79 | Parsing the tokens of any tree gives back that tree and stops right after its last token, whatever follows. |
| `Properties.OperandsRoundTrip` | src/parser.rs:63-76 | Given the tokens of some operands and a `)`, the operand loop appends exactly those operands, in source order, and stops after the `)`. |
| `Properties.ParseSound` | src/parser.rs:45-56 | Whenever a parse delivers a tree, the tokens it consumed are exactly that tree's tokens. A call node is only built for a complete, balanced `( ... )` region. |
| `Properties.ProcedureCallSound` | src/parser.rs:58-79 | A call node delivered by call parsing covers exactly `(`, the operator's tokens, the operands' tokens and `)`. |
| `Properties.OperandsSound` | src/parser.rs:63-76 | When the operand loop delivers a call, the operands read before it are kept as a prefix, and the tokens it read are exactly those of the new operands followed by `)`. |
| `Properties.ParseIff` | src/parser.rs:45-79 | A parse delivers tree `e` and leaves `s` if and only if the stream is the tokens of `e` followed by `s`. |
| `Properties.Truncated` | src/parser.rs:58-79 | A stream that stops partway through a tree's tokens never yields a tree. It yields "no expression" exactly when it holds only `(` tokens, and the unmatched-parentheses error otherwise. |
| `Properties.TruncatedInOperator` | src/parser.rs:59-61 | A stream cut short inside a call's operator yields "no expression" if it holds only `(` tokens, and the unmatched-parentheses error otherwise. |
| `Properties.TruncatedAfterOperator` | src/parser.rs:64-76 | A stream cut short after a call's operator is the unmatched-parentheses error. |
| `Properties.OperandsTruncated` | src/parser.rs:64-76 | The operand loop on a stream that stops before its call's closing `)` is the unmatched-parentheses error. |
| `Properties.Sequential` | src/parser.rs:45-56 | Two trees written one after the other come back from two successive parses, in order. A third parse yields "no expression". |
| `SourceTests.EmptyTest` | src/parser.rs:91-98 | A parser built from an empty stream returns "no expression" from `Parse`. |
| `SourceTests.NumberTest` | src/parser.rs:100-107 | A parser built from the stream `1` returns `Number("1")` from `Parse`. |
| `SourceTests.IdentifierTest` | src/parser.rs:109-116 | A parser built from the stream `test` returns `Identifier("test")` from `Parse`. |
| `SourceTests.ProcedureCallTest` | src/parser.rs:118-142 | A parser built from `(+ 1 2 3)` returns the call of `+` on `1`, `2`, `3` from `Parse`. |
| `SourceTests.UnmatchedTest` | src/parser.rs:144-160 | A parser built from `(+ 1 2 3` without its `)` returns the unmatched-parentheses error from `Parse`. |
| `SourceTests.NestedTest` | src/parser.rs:162-194 | A parser built from `(+ 1 (- 2 3))` returns the nested call tree from `Parse`. |
| `SourceTests.TwoExpressions` | src/parser.rs:37-56 | On one parser object, two successive `parse` calls return two concatenated expressions in order, and a third returns "no expression". |

## Left out

- The lexer (`crate::lexer`) is not part of this model. The parser takes a finite sequence of tokens as given. `Token` keeps the four variants the parser matches, and one `Other` variant stands for all the others.
- The token source is modelled as a sequence that, once exhausted, stays exhausted. This is how the vector iterators used by the tests behave. An iterator that yields tokens again after returning `None` is not modelled.
- The `Iterator + Clone` bound and `Box` allocation are not modelled. Trees are ordinary inductive values, so the model does not capture sharing or heap layout.
- The `syntax_error!` macro is modelled only by what it returns: an `Err` carrying the formatted message.
- Rust's stack depth is not modelled. The recursion depth of a parse equals the tree's nesting depth, and a real stack overflow on very deep input is outside the model.
