/**
 * The part of the Monkey AST that the parser builds so far. The ast package is
 * not part of this model; these datatypes carry only the fields the parser sets.
 */
module Ast {
  import opened Options
  import opened Tokens

  /** Expressions: only identifiers exist in this parser. */
  datatype Expression = Identifier(token: Token, value: string)

  /**
   * Statements. `value`, `returnValue` and `expression` are Go pointers that may
   * be nil; in this parser the first two are never set.
   */
  datatype Statement =
    | LetStatement(token: Token, name: Expression, value: Option<Expression>)
    | ReturnStatement(token: Token, returnValue: Option<Expression>)
    | ExpressionStatement(token: Token, expression: Option<Expression>)

  /**
   * A value of Go's `ast.Statement` interface type: the nil interface, or an
   * interface holding a statement pointer, which may itself be nil.
   */
  datatype StatementRef = NilInterface | Points(target: Option<Statement>)

  /** The root node: the statements in source order. */
  datatype Program = Program(statements: seq<StatementRef>)
}
