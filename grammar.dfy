/** The parser's behaviour as pure functions over the tokens not yet read.
    Each function returns what the corresponding parser operation returns
    together with the tokens left unread afterwards, so the stateful parser
    (module Parsing) can be proved equal to it call by call. */
module Grammar {
  import opened Ast

  /** What one parse produces and where it leaves the cursor. */
  datatype Outcome = Outcome(result: Result<Option<Expression>>, rest: seq<Token>)

  /** True when the outcome delivered a tree. */
  predicate Produced(o: Outcome) {
    o.result.Ok? && o.result.value.Some?
  }

  /** One expression read from the front of `ts`, dispatching on the lookahead:
      a leaf is taken with its text and consumes one token, `(` starts a call,
      `)` is an error without consuming anything, and an exhausted stream or an
      unrecognised token gives no expression without consuming anything. */
  function Parse(ts: seq<Token>): (o: Outcome)
    ensures |o.rest| <= |ts|
    ensures Produced(o) ==> |o.rest| < |ts|
    ensures o.result.Err? ==> o.result.error == Unmatched
    decreases |ts|, 1
  {
    if ts == [] then Outcome(Ok(None), ts)
    else match ts[0]
      case Number(a) => Outcome(Ok(Some(Expression.Number(a))), ts[1..])
      case Identifier(a) => Outcome(Ok(Some(Expression.Identifier(a))), ts[1..])
      case LeftParen => ProcedureCall(ts)
      case RightParen => Outcome(Err(Unmatched), ts)
      case Other => Outcome(Ok(None), ts)
  }

  /** A call starting at the `(` in front of `ts`: skip it, read the operator,
      then read operands up to the closing `)`. An absent operator makes the
      whole call absent; an error reading the operator is passed on. */
  function ProcedureCall(ts: seq<Token>): (o: Outcome)
    requires ts != [] && ts[0] == LeftParen
    ensures |o.rest| < |ts|
    ensures Produced(o) ==> o.result.value.value.ProcudureCall?
    ensures o.result.Err? ==> o.result.error == Unmatched
    decreases |ts|, 0
  {
    var op := Parse(ts[1..]);
    match op.result
    case Err(e) => Outcome(Err(e), op.rest)
    case Ok(None) => Outcome(Ok(None), op.rest)
    case Ok(Some(operator)) => Operands(operator, [], op.rest)
  }

  /** The operand loop of a call whose operator is `operator` and whose
      operands read so far are `params`: a `)` closes the call, an exhausted
      stream is an error, and otherwise one more operand is read, where an
      error is passed on and an absent operand is an error. */
  function Operands(operator: Expression, params: seq<Expression>, ts: seq<Token>): (o: Outcome)
    ensures |o.rest| <= |ts|
    ensures o.result.Ok? ==> o.result.value.Some? && |o.rest| < |ts|
    ensures Produced(o) ==>
              && o.result.value.value.ProcudureCall?
              && o.result.value.value.operator == operator
              && params <= o.result.value.value.operands
    ensures o.result.Err? ==> o.result.error == Unmatched
    decreases |ts|, 2
  {
    if ts == [] then Outcome(Err(Unmatched), ts)
    else if ts[0] == RightParen then Outcome(Ok(Some(ProcudureCall(operator, params))), ts[1..])
    else
      var arg := Parse(ts);
      match arg.result
      case Err(e) => Outcome(Err(e), arg.rest)
      case Ok(None) => Outcome(Err(Unmatched), arg.rest)
      case Ok(Some(e)) => Operands(operator, params + [e], arg.rest)
  }

  /** The tokens an expression is written as: a leaf is its own token, a call
      is `(`, the operator, the operands in order, then `)`. */
  function Render(e: Expression): (ts: seq<Token>)
    ensures ts != [] && ts[0] != RightParen && ts[0] != Other
    ensures e.ProcudureCall? <==> ts[0] == LeftParen
    ensures ts[|ts| - 1] != LeftParen
    decreases e, 1
  {
    match e
    case Identifier(a) => [Token.Identifier(a)]
    case Number(a) => [Token.Number(a)]
    case ProcudureCall(op, args) => [LeftParen] + Render(op) + RenderAll(args) + [RightParen]
  }

  /** The tokens of a sequence of expressions, one after another. */
  function RenderAll(es: seq<Expression>): (ts: seq<Token>)
    decreases es, 0
  {
    if es == [] then [] else Render(es[0]) + RenderAll(es[1..])
  }
}
