/** What the parser promises, stated over the reference functions of module
    Grammar: the behaviour for each lookahead, the error paths of a call, the
    exact correspondence between parsed trees and the tokens they are written
    as, and the result on a stream cut short inside a call. */
module Properties {
  import opened Ast
  import opened Grammar

  /** Every token of `p` is an opening parenthesis. */
  predicate AllOpen(p: seq<Token>) {
    forall i :: 0 <= i < |p| ==> p[i] == LeftParen
  }

  /** A number or identifier lookahead becomes the leaf with exactly the
      token's text, and exactly that one token is consumed. */
  lemma LeafLookahead(t: Token, rest: seq<Token>)
    requires t.Number? || t.Identifier?
    ensures Parse([t] + rest) == Outcome(Ok(Some(
              if t.Number? then Expression.Number(t.text) else Expression.Identifier(t.text))), rest)
  {
    assert ([t] + rest)[1..] == rest;
  }

  /** An exhausted stream yields no expression and leaves nothing. */
  lemma EmptyStream()
    ensures Parse([]) == Outcome(Ok(None), [])
  {
  }

  /** A `)` lookahead is the unmatched-parentheses error and any other
      unrecognised token yields no expression. Neither moves the cursor. */
  lemma StopLookahead(t: Token, rest: seq<Token>)
    ensures t == RightParen ==> Parse([t] + rest) == Outcome(Err(Unmatched), [t] + rest)
    ensures t == Other ==> Parse([t] + rest) == Outcome(Ok(None), [t] + rest)
  {
  }

  /** An operator position that yields no expression makes the whole call
      yield none, with the `(` consumed; an error there is passed on. */
  lemma OperatorPosition(ts: seq<Token>)
    ensures Parse(ts).result.Ok? && Parse(ts).result.value.None? ==>
              Parse([LeftParen] + ts) == Outcome(Ok(None), Parse(ts).rest)
    ensures Parse(ts).result.Err? ==> Parse([LeftParen] + ts) == Parse(ts)
  {
    assert ([LeftParen] + ts)[1..] == ts;
  }

  /** The empty list `()` is an error, found at the `)` without consuming it. */
  lemma EmptyCall(rest: seq<Token>)
    ensures Parse([LeftParen, RightParen] + rest) == Outcome(Err(Unmatched), [RightParen] + rest)
  {
    var ts := [LeftParen, RightParen] + rest;
    assert ts[1..] == [RightParen] + rest;
    StopLookahead(RightParen, rest);
  }

  /** A `(` at the end of the stream yields no expression, and so does `((`
      at the end: the innermost operator position finds nothing. */
  lemma OpenAtEnd()
    ensures Parse([LeftParen]) == Outcome(Ok(None), [])
    ensures Parse([LeftParen, LeftParen]) == Outcome(Ok(None), [])
  {
    assert Parse([LeftParen]) == Outcome(Ok(None), []);
    assert [LeftParen, LeftParen][1..] == [LeftParen];
  }

  /** A `(` directly followed by an unrecognised token yields no expression,
      leaving that token as the lookahead. */
  lemma OpenThenOther(rest: seq<Token>)
    ensures Parse([LeftParen, Other] + rest) == Outcome(Ok(None), [Other] + rest)
  {
    var ts := [LeftParen, Other] + rest;
    assert ts[0] == LeftParen && ts[1..] == [Other] + rest;
    StopLookahead(Other, rest);
  }

  /** The operand loop fails when the stream ends before the closing `)`. */
  lemma OperandsExhausted(operator: Expression, params: seq<Expression>)
    ensures Operands(operator, params, []) == Outcome(Err(Unmatched), [])
  {
  }

  /** The operand loop fails when an operand position yields no expression,
      in particular at an unrecognised token, which stays the lookahead. */
  lemma OperandAbsent(operator: Expression, params: seq<Expression>, ts: seq<Token>)
    requires ts != [] && ts[0] != RightParen && Parse(ts).result == Ok(None)
    ensures Operands(operator, params, ts) == Outcome(Err(Unmatched), Parse(ts).rest)
    ensures ts[0] == Other ==> Operands(operator, params, ts) == Outcome(Err(Unmatched), ts)
  {
  }

  /** An error while reading an operand ends the call with that error and
      that cursor: no partial tree is returned. */
  lemma OperandError(operator: Expression, params: seq<Expression>, ts: seq<Token>)
    requires ts != [] && ts[0] != RightParen && Parse(ts).result.Err?
    ensures Operands(operator, params, ts) == Parse(ts)
  {
  }

  /** `rest` is what is left of `ts` after reading some tokens from its front. */
  predicate Suffix(rest: seq<Token>, ts: seq<Token>) {
    |rest| <= |ts| && ts[|ts| - |rest|..] == rest
  }

  lemma SuffixTransitive(a: seq<Token>, b: seq<Token>, c: seq<Token>)
    requires Suffix(a, b) && Suffix(b, c)
    ensures Suffix(a, c)
  {
    assert c[|c| - |b|..][|b| - |a|..] == c[|c| - |a|..];
  }

  /** The parser only ever reads from the front of the stream: the tokens a
      parse leaves are a suffix of those it was given, whatever its result. */
  lemma {:induction false} ParseForward(ts: seq<Token>)
    ensures Suffix(Parse(ts).rest, ts)
    decreases |ts|, 1
  {
    if ts != [] && ts[0] == LeftParen {
      ProcedureCallForward(ts);
    }
  }

  lemma {:induction false} ProcedureCallForward(ts: seq<Token>)
    requires ts != [] && ts[0] == LeftParen
    ensures Suffix(ProcedureCall(ts).rest, ts)
    decreases |ts|, 0
  {
    var op := Parse(ts[1..]);
    ParseForward(ts[1..]);
    SuffixTransitive(op.rest, ts[1..], ts);
    if Produced(op) {
      OperandsForward(op.result.value.value, [], op.rest);
      SuffixTransitive(ProcedureCall(ts).rest, op.rest, ts);
    }
  }

  lemma {:induction false} OperandsForward(operator: Expression, params: seq<Expression>, ts: seq<Token>)
    ensures Suffix(Operands(operator, params, ts).rest, ts)
    decreases |ts|, 2
  {
    if ts != [] && ts[0] != RightParen {
      var arg := Parse(ts);
      ParseForward(ts);
      if Produced(arg) {
        OperandStep(operator, params, ts);
        OperandsForward(operator, params + [arg.result.value.value], arg.rest);
        SuffixTransitive(Operands(operator, params, ts).rest, arg.rest, ts);
      }
    }
  }

  /** Parsing the tokens of any expression, whatever follows them, gives back
      that expression and stops right after its last token. */
  lemma {:induction false} RoundTrip(e: Expression, s: seq<Token>)
    ensures Parse(Render(e) + s) == Outcome(Ok(Some(e)), s)
    decreases e, 1
  {
    match e
    case Identifier(a) =>
      assert (Render(e) + s)[1..] == s;
    case Number(a) =>
      assert (Render(e) + s)[1..] == s;
    case ProcudureCall(op, args) =>
      var ts := Render(e) + s;
      var after := RenderAll(args) + [RightParen] + s;
      assert ts[1..] == Render(op) + after;
      RoundTrip(op, after);
      OperandsRoundTrip(op, [], args, s);
      assert [] + args == args;
  }

  /** The operand loop reads the tokens of `args` up to the closing `)` and
      builds the call with `args` appended to the operands read so far. */
  lemma {:induction false} OperandsRoundTrip(operator: Expression, params: seq<Expression>,
                                             args: seq<Expression>, s: seq<Token>)
    ensures Operands(operator, params, RenderAll(args) + [RightParen] + s)
            == Outcome(Ok(Some(ProcudureCall(operator, params + args))), s)
    decreases args, 0
  {
    var ts := RenderAll(args) + [RightParen] + s;
    if args == [] {
      assert ts == [RightParen] + s;
      assert params + args == params;
    } else {
      var tail := RenderAll(args[1..]) + [RightParen] + s;
      assert ts == Render(args[0]) + tail;
      assert Parse(ts) == Outcome(Ok(Some(args[0])), tail) by { RoundTrip(args[0], tail); }
      OperandStep(operator, params, ts);
      OperandsRoundTrip(operator, params + [args[0]], args[1..], s);
      assert params + [args[0]] + args[1..] == params + args;
    }
  }

  /** Whenever a parse delivers a tree, the tokens it consumed are exactly
      that tree's tokens: a call node is only built for a complete,
      balanced `( ... )` region. */
  lemma {:induction false} ParseSound(ts: seq<Token>, e: Expression, rest: seq<Token>)
    requires Parse(ts) == Outcome(Ok(Some(e)), rest)
    ensures ts == Render(e) + rest
    decreases |ts|, 1
  {
    if ts[0] == LeftParen {
      ProcedureCallSound(ts, e, rest);
    } else {
      assert ts == [ts[0]] + ts[1..];
    }
  }

  /** A call node delivered by call parsing covers exactly `(`, the
      operator's tokens, the operands' tokens and `)`. */
  lemma {:induction false} ProcedureCallSound(ts: seq<Token>, e: Expression, rest: seq<Token>)
    requires ts != [] && ts[0] == LeftParen
    requires ProcedureCall(ts) == Outcome(Ok(Some(e)), rest)
    ensures ts == Render(e) + rest
    decreases |ts|, 0
  {
    var op := Parse(ts[1..]);
    assert Produced(op);
    var operator := op.result.value.value;
    assert Operands(operator, [], op.rest) == Outcome(Ok(Some(e)), rest);
    ParseSound(ts[1..], operator, op.rest);
    OperandsSound(operator, [], op.rest, e, rest);
    assert e.operands[0..] == e.operands;
    CallTokens(ts, e, op.rest, rest);
  }

  /** A `(`, the operator's tokens, the operands' tokens and `)` are the
      tokens of the call. */
  lemma CallTokens(ts: seq<Token>, e: Expression, after: seq<Token>, rest: seq<Token>)
    requires e.ProcudureCall? && ts != [] && ts[0] == LeftParen
    requires ts[1..] == Render(e.operator) + after
    requires after == RenderAll(e.operands) + [RightParen] + rest
    ensures ts == Render(e) + rest
  {
    assert ts == [LeftParen] + ts[1..];
  }

  /** When the operand loop delivers a call, the tokens it read are exactly
      those of the operands it added, followed by `)`. */
  lemma {:induction false} OperandsSound(operator: Expression, params: seq<Expression>, ts: seq<Token>,
                                         e: Expression, rest: seq<Token>)
    requires Operands(operator, params, ts) == Outcome(Ok(Some(e)), rest)
    ensures e.ProcudureCall? && params <= e.operands
    ensures ts == RenderAll(e.operands[|params|..]) + [RightParen] + rest
    decreases |ts|, 2
  {
    if ts[0] == RightParen {
      assert e.operands[|params|..] == [];
      assert ts == [RightParen] + ts[1..];
    } else {
      var arg := Parse(ts);
      assert Produced(arg);
      var e1 := arg.result.value.value;
      OperandStep(operator, params, ts);
      OperandsSound(operator, params + [e1], arg.rest, e, rest);
      ParseSound(ts, e1, arg.rest);
      assert e.operands[|params|] == e1;
      OperandTokens(ts, arg.rest, e.operands, |params|, rest);
    }
  }

  /** After an operand has been read, the loop goes on from just after it. */
  lemma OperandStep(operator: Expression, params: seq<Expression>, ts: seq<Token>)
    requires ts != [] && ts[0] != RightParen && Produced(Parse(ts))
    ensures Operands(operator, params, ts)
            == Operands(operator, params + [Parse(ts).result.value.value], Parse(ts).rest)
  {
  }

  /** Tokens of operand `k` followed by the tokens of the operands after it
      and `)` are the tokens of the operands from `k` on and `)`. */
  lemma OperandTokens(ts: seq<Token>, after: seq<Token>, ops: seq<Expression>, k: nat, rest: seq<Token>)
    requires k < |ops|
    requires ts == Render(ops[k]) + after && after == RenderAll(ops[k + 1..]) + [RightParen] + rest
    ensures ts == RenderAll(ops[k..]) + [RightParen] + rest
  {
    assert ops[k..][1..] == ops[k + 1..];
  }

  /** A parse delivers tree `e` and leaves `s` exactly when the stream is the
      tokens of `e` followed by `s`. */
  lemma ParseIff(ts: seq<Token>, e: Expression, s: seq<Token>)
    ensures Parse(ts) == Outcome(Ok(Some(e)), s) <==> ts == Render(e) + s
  {
    if Parse(ts) == Outcome(Ok(Some(e)), s) {
      ParseSound(ts, e, s);
    }
    if ts == Render(e) + s {
      RoundTrip(e, s);
    }
  }

  /** A stream that stops partway through an expression's tokens never yields
      a tree: it yields no expression when it holds only `(` tokens (the
      operator position ran out), and the unmatched-parentheses error otherwise. */
  lemma {:induction false} Truncated(e: Expression, p: seq<Token>)
    requires p != [] && p < Render(e)
    ensures Parse(p).result == if AllOpen(p) then Ok(None) else Err(Unmatched)
    decreases e, 2
  {
    if e.ProcudureCall? {
      if |p| == 1 {
        assert p == [LeftParen];
        OpenAtEnd();
      } else if |p| - 1 < |Render(e.operator)| {
        TruncatedInOperator(e, p);
      } else {
        TruncatedAfterOperator(e, p);
      }
    }
  }

  /** A stream cut short inside a call's operator gives what the operator
      position gives. */
  lemma {:induction false} TruncatedInOperator(e: Expression, p: seq<Token>)
    requires e.ProcudureCall? && p < Render(e) && 1 < |p| < |Render(e.operator)| + 1
    ensures Parse(p).result == if AllOpen(p) then Ok(None) else Err(Unmatched)
    decreases e, 1
  {
    var q := p[1..];
    assert Render(e) == [LeftParen] + Render(e.operator) + (RenderAll(e.operands) + [RightParen]);
    assert p == [LeftParen] + q && q < Render(e.operator);
    Truncated(e.operator, q);
    TruncatedOperator(q);
  }

  /** A stream cut short after a call's operator fails in the operand loop. */
  lemma {:induction false} TruncatedAfterOperator(e: Expression, p: seq<Token>)
    requires e.ProcudureCall? && p < Render(e) && |Render(e.operator)| + 1 <= |p|
    ensures Parse(p).result == Err(Unmatched) && !AllOpen(p)
    decreases e, 1
  {
    var op, args := e.operator, e.operands;
    var n := |Render(op)|;
    var q := p[1..];
    var q' := p[n + 1..];
    assert Render(e) == [LeftParen] + Render(op) + (RenderAll(args) + [RightParen]);
    assert p == [LeftParen] + q && q == Render(op) + q';
    assert q' < RenderAll(args) + [RightParen];
    RoundTrip(op, q');
    OperandsTruncated(op, [], args, q');
    OperandsAfterOperator(q, op, q');
    assert p[n] == Render(op)[n - 1];
  }

  /** A `(` in front of an operator position that yields no expression or the
      unmatched-parentheses error passes that result on. */
  lemma TruncatedOperator(q: seq<Token>)
    requires Parse(q).result == if AllOpen(q) then Ok(None) else Err(Unmatched)
    ensures Parse([LeftParen] + q).result == if AllOpen([LeftParen] + q) then Ok(None) else Err(Unmatched)
  {
    var p := [LeftParen] + q;
    assert p[1..] == q;
    assert AllOpen(p) <==> AllOpen(q) by {
      if AllOpen(q) {
        forall i | 0 <= i < |p| ensures p[i] == LeftParen {
          if i > 0 { assert p[i] == q[i - 1]; }
        }
      }
      if AllOpen(p) {
        forall i | 0 <= i < |q| ensures q[i] == LeftParen {
          assert q[i] == p[i + 1];
        }
      }
    }
  }

  /** Once the operator of a call has been read, the call's result is that of
      its operand loop. */
  lemma OperandsAfterOperator(q: seq<Token>, operator: Expression, after: seq<Token>)
    requires Parse(q) == Outcome(Ok(Some(operator)), after)
    ensures Parse([LeftParen] + q) == Operands(operator, [], after)
  {
    assert ([LeftParen] + q)[1..] == q;
  }

  /** The operand loop on a stream that stops before the closing `)` of its
      call fails with the unmatched-parentheses error. */
  lemma {:induction false} OperandsTruncated(operator: Expression, params: seq<Expression>,
                                             args: seq<Expression>, q: seq<Token>)
    requires q < RenderAll(args) + [RightParen]
    ensures Operands(operator, params, q).result == Err(Unmatched)
    decreases args, 0
  {
    if q != [] {
      assert args != [];
      var a0 := args[0];
      var tail := RenderAll(args[1..]) + [RightParen];
      assert RenderAll(args) + [RightParen] == Render(a0) + tail;
      assert q[0] == Render(a0)[0];
      if |q| < |Render(a0)| {
        assert q < Render(a0);
        Truncated(a0, q);
      } else {
        var n := |Render(a0)|;
        var q' := q[n..];
        assert q == Render(a0) + q';
        assert q' < tail;
        RoundTrip(a0, q');
        OperandsTruncated(operator, params + [a0], args[1..], q');
      }
    }
  }

  /** Two complete expressions written one after the other are returned by
      two successive parses, in order, and a third parse yields none. */
  lemma Sequential(e1: Expression, e2: Expression)
    ensures Parse(Render(e1) + Render(e2)) == Outcome(Ok(Some(e1)), Render(e2))
    ensures Parse(Render(e2)) == Outcome(Ok(Some(e2)), [])
    ensures Parse([]) == Outcome(Ok(None), [])
  {
    RoundTrip(e1, Render(e2));
    RoundTrip(e2, []);
    assert Render(e2) + [] == Render(e2);
  }
}
