/** Values shared by the parser: the tokens it reads, the tree it builds and
    the one error it reports. */
module Ast {

  /** A lexical token. Only the first four variants are recognised by the
      parser; `Other` stands for every further variant the lexer may produce. */
  datatype Token =
    | Number(text: string)
    | Identifier(text: string)
    | LeftParen
    | RightParen
    | Other

  /** The syntax tree. A number keeps its literal text; it is never converted
      to a numeric value. The call constructor keeps the source's spelling. */
  datatype Expression =
    | Identifier(name: string)
    | Number(literal: string)
    | ProcudureCall(operator: Expression, operands: seq<Expression>)

  /** The parser's only error value: a message. */
  datatype SyntaxError = SyntaxError(error: string)

  datatype Option<+T> = None | Some(value: T)

  datatype Result<+T> = Ok(value: T) | Err(error: SyntaxError)

  const UnmatchedMessage: string := "Unmatched Parentheses!"

  /** The single error the parser produces. */
  const Unmatched: SyntaxError := SyntaxError(UnmatchedMessage)

  const DisplayPrefix: string := "Syntax error: "

  /** The text an error is displayed as: the fixed prefix, then its message. */
  function Display(e: SyntaxError): (s: string)
    ensures |s| == |DisplayPrefix| + |e.error|
    ensures s[..|DisplayPrefix|] == DisplayPrefix && s[|DisplayPrefix|..] == e.error
  {
    DisplayPrefix + e.error
  }
}
