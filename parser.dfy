/** The parser object: a one-token lookahead over a token source, read from
    front to back. `Parse` and `ProcedureCall` are proved to return what the
    reference functions of module Grammar return and to leave exactly the
    tokens they leave; `Advance` and `Generate` are proved to drop exactly the
    lookahead token. */
module Parsing {
  import opened Ast
  import Grammar

  /** One step of the token source: its next token, if any, and what is left
      of it. Once the source is exhausted it stays exhausted. */
  function Next(source: seq<Token>): (step: (Option<Token>, seq<Token>))
    ensures step.0.None? <==> source == []
    ensures step.0.Some? ==> [step.0.value] + step.1 == source
    ensures step.0.None? ==> step.1 == []
  {
    if source == [] then (None, []) else (Some(source[0]), source[1..])
  }

  /** The tokens left after the first one has been read (none if none are left). */
  function Tail(ts: seq<Token>): (rest: seq<Token>) {
    if ts == [] then [] else ts[1..]
  }

  class Parser {
    /** The lookahead token; None once the source is exhausted. */
    var current: Option<Token>
    /** The tokens the source has not yet handed out. */
    var lexer: seq<Token>

    /** An exhausted lookahead means an exhausted source. */
    ghost predicate Valid()
      reads this
    {
      current.None? ==> lexer == []
    }

    /** The tokens still to be parsed: the lookahead, then the rest of the source. */
    ghost function Remaining(): seq<Token>
      reads this
    {
      match current
      case None => []
      case Some(t) => [t] + lexer
    }

    /** Reads the first token into the lookahead. */
    constructor (tokens: seq<Token>)
      ensures Valid() && Remaining() == tokens
      ensures current == (if tokens == [] then None else Some(tokens[0]))
    {
      var (first, rest) := Next(tokens);
      current := first;
      lexer := rest;
    }

    /** Parses one expression from the current position. */
    method Parse() returns (r: Result<Option<Expression>>)
      requires Valid()
      modifies this
      ensures Valid()
      ensures Grammar.Outcome(r, Remaining()) == Grammar.Parse(old(Remaining()))
      decreases |Remaining()|, 1
    {
      match current {
        case None =>
          r := Ok(None);
        case Some(token) =>
          match token {
            case Number(a) =>
              r := Generate(Expression.Number(a));
            case Identifier(a) =>
              r := Generate(Expression.Identifier(a));
            case LeftParen =>
              r := ProcedureCall();
            case RightParen =>
              r := Err(Unmatched);
            case Other =>
              r := Ok(None);
          }
      }
    }

    /** Parses a call whose `(` is the lookahead. */
    method ProcedureCall() returns (r: Result<Option<Expression>>)
      requires Valid() && current == Some(LeftParen)
      modifies this
      ensures Valid()
      ensures Grammar.Outcome(r, Remaining()) == Grammar.ProcedureCall(old(Remaining()))
      decreases |Remaining()|, 0
    {
      Advance();
      var op := Parse();
      match op {
        case Err(e) =>
          r := Err(e);
        case Ok(None) =>
          r := Ok(None);
        case Ok(Some(operator)) =>
          var params: seq<Expression> := [];
          while true
            invariant Valid()
            invariant |Remaining()| < |old(Remaining())|
            invariant Grammar.Operands(operator, params, Remaining())
                      == Grammar.ProcedureCall(old(Remaining()))
            decreases |Remaining()|
          {
            match current {
              case Some(RightParen) =>
                r := Generate(ProcudureCall(operator, params));
                return;
              case None =>
                r := Err(Unmatched);
                return;
              case _ =>
                var arg := Parse();
                match arg {
                  case Err(e) =>
                    r := Err(e);
                    return;
                  case Ok(None) =>
                    r := Err(Unmatched);
                    return;
                  case Ok(Some(subexpr)) =>
                    params := params + [subexpr];
                }
            }
          }
      }
    }

    /** Replaces the lookahead with the next token of the source. */
    method Advance()
      requires Valid()
      modifies this
      ensures Valid()
      ensures Remaining() == Tail(old(Remaining()))
    {
      var (next, rest) := Next(lexer);
      current := next;
      lexer := rest;
    }

    /** Consumes the lookahead and returns `ast` as the parsed expression. */
    method Generate(ast: Expression) returns (r: Result<Option<Expression>>)
      requires Valid()
      modifies this
      ensures Valid() && r == Ok(Some(ast))
      ensures Remaining() == Tail(old(Remaining()))
    {
      Advance();
      r := Ok(Some(ast));
    }
  }
}
