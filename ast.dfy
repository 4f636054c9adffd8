/** The syntax tree the parser builds. The variants are those that src/parser.rs actually
    constructs; every node keeps the token that introduced it. */
module Ast {
  import opened Options
  import opened Tokens

  datatype Expression =
    | NormalIdentifier(idents: seq<Token>)
    | DefinitionIdentifier(idents: seq<Token>)
    | IntegerLiteral(token: Token)
    | FloatLiteral(token: Token)
    | StringLiteral(token: Token)
    | UnderscoreLiteral(token: Token)
    | ArrayLiteral(token: Token, elements: seq<Expression>)
    | FunctionLiteral(token: Token, parameters: Expression, statements: Statement)
    /** `arguments` and `callee` are the fields `parameters` and `function` of the source. */
    | CallExpression(token: Token, arguments: seq<Expression>, callee: Expression)
    | InfixExpression(token: Token, left: Expression, right: Expression)
    | MatchExpression(token: Token, default: Option<Statement>, pairs: seq<MatchPair>)

  /** One clause of a match (`MatchPairExpression`): its alternative predicates (the field
      `predicate` of the source) and its body. */
  datatype MatchPair = MatchPair(predicates: seq<Expression>, statement: Statement)

  datatype Statement =
    /** `name` is the field `value` of the source. */
    | ImportStatement(token: Token, name: Token)
    | ExpressionStatement(token: Token, expression: Expression)
    | AssignStatement(token: Token, expression: Expression, defined: Expression)
    | UpdateStatement(token: Token, expression: Expression, ident: Expression)
    | ReturnStatement(token: Token, value: Expression)
    | BlockStatement(token: Token, statements: seq<Statement>)

  /** The parse result: the top-level statements in source order. */
  datatype Program = Program(statements: seq<Statement>)

  /** The body a match clause or a function literal gets when the source gives a single
      expression instead of a `{ ... }` block: a block holding one return. */
  function Shorthand(token: Token, value: Expression): Statement {
    BlockStatement(token, [ReturnStatement(token, value)])
  }
}
