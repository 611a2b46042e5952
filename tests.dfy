/** The parser's unit tests, each run on a parser object built from the
    test's tokens, and a client of the parser object that reads two
    expressions from one stream. */
module SourceTests {
  import opened Ast
  import opened Grammar
  import opened Properties
  import Parsing

  /** `(+ 1 2 3)` as a tree. */
  function SumTree(): (e: Expression) {
    ProcudureCall(Expression.Identifier("+"),
      [Expression.Number("1"), Expression.Number("2"), Expression.Number("3")])
  }

  /** `(+ 1 (- 2 3))` as a tree. */
  function NestedTree(): (e: Expression) {
    ProcudureCall(Expression.Identifier("+"),
      [Expression.Number("1"),
       ProcudureCall(Expression.Identifier("-"), [Expression.Number("2"), Expression.Number("3")])])
  }

  /** The tokens of `(+ 1 2 3)`. */
  function SumTokens(): (ts: seq<Token>) {
    [LeftParen, Token.Identifier("+"), Token.Number("1"), Token.Number("2"), Token.Number("3"), RightParen]
  }

  /** The tokens of `(+ 1 (- 2 3))`. */
  function NestedTokens(): (ts: seq<Token>) {
    [LeftParen, Token.Identifier("+"), Token.Number("1"),
     LeftParen, Token.Identifier("-"), Token.Number("2"), Token.Number("3"), RightParen,
     RightParen]
  }

  method EmptyTest() returns (r: Result<Option<Expression>>)
    ensures r == Ok(None)
  {
    var parser := new Parsing.Parser([]);
    r := parser.Parse();
  }

  method NumberTest() returns (r: Result<Option<Expression>>)
    ensures r == Ok(Some(Expression.Number("1")))
  {
    LeafLookahead(Token.Number("1"), []);
    assert [Token.Number("1")] + [] == [Token.Number("1")];
    var parser := new Parsing.Parser([Token.Number("1")]);
    r := parser.Parse();
  }

  method IdentifierTest() returns (r: Result<Option<Expression>>)
    ensures r == Ok(Some(Expression.Identifier("test")))
  {
    LeafLookahead(Token.Identifier("test"), []);
    assert [Token.Identifier("test")] + [] == [Token.Identifier("test")];
    var parser := new Parsing.Parser([Token.Identifier("test")]);
    r := parser.Parse();
  }

  method ProcedureCallTest() returns (r: Result<Option<Expression>>)
    ensures r == Ok(Some(SumTree()))
  {
    assert SumTokens() == Render(SumTree()) + [];
    RoundTrip(SumTree(), []);
    var parser := new Parsing.Parser(SumTokens());
    r := parser.Parse();
  }

  /** `(+ 1 2 3` with the closing parenthesis missing. */
  method UnmatchedTest() returns (r: Result<Option<Expression>>)
    ensures r == Err(Unmatched)
  {
    var p := SumTokens()[..5];
    assert SumTokens() == Render(SumTree());
    assert p < Render(SumTree());
    assert !AllOpen(p) by { assert p[1] != LeftParen; }
    Truncated(SumTree(), p);
    var parser := new Parsing.Parser(p);
    r := parser.Parse();
  }

  method NestedTest() returns (r: Result<Option<Expression>>)
    ensures r == Ok(Some(NestedTree()))
  {
    var inner := NestedTree().operands[1];
    var innerTokens := [LeftParen, Token.Identifier("-"), Token.Number("2"), Token.Number("3"), RightParen];
    assert Render(inner) == innerTokens;
    assert RenderAll(NestedTree().operands) == [Token.Number("1")] + innerTokens by {
      assert NestedTree().operands[1..][1..] == [];
    }
    assert NestedTokens() == Render(NestedTree()) + [];
    RoundTrip(NestedTree(), []);
    var parser := new Parsing.Parser(NestedTokens());
    r := parser.Parse();
  }

  /** Two complete expressions written one after the other: successive calls
      of `parse` on one parser return them in order, then no expression. */
  method TwoExpressions(e1: Expression, e2: Expression)
    returns (r1: Result<Option<Expression>>, r2: Result<Option<Expression>>, r3: Result<Option<Expression>>)
    ensures r1 == Ok(Some(e1)) && r2 == Ok(Some(e2)) && r3 == Ok(None)
  {
    var parser := new Parsing.Parser(Render(e1) + Render(e2));
    Sequential(e1, e2);
    r1 := parser.Parse();
    r2 := parser.Parse();
    r3 := parser.Parse();
  }
}
