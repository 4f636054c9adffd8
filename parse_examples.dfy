/** Worked parses of short programs, one or more per rule of src/parser.rs. Each lemma takes
    any token sequence of the given kinds (the parser never looks at positions, so the trees
    are stated in terms of the tokens themselves) and walks the parse bottom-up, one step
    law of module ParseLaws at a time. */
module ParseExamples {
  import opened Options
  import opened Tokens
  import opened Ast
  import opened Grammar
  import opened ParseLaws

  /** A literal as the last operand, at any precedence: nothing binds to its right. */
  lemma LastLiteral(ts: seq<Token>, pos: nat, prec: Precedence)
    requires pos < |ts| && IsLiteral(ts[pos].kind) && !Below(prec, PeekPrecedence(ts, pos))
    ensures ParseExpression(ts, pos, prec, None) == Ok(Some(Literal(ts[pos])), pos)
  {
    LiteralOperand(ts, pos, prec);
    LoopStops(ts, pos, prec, Literal(ts[pos]));
  }

  /** `a op b` for a literal `b` after which nothing binds tighter than `prec`: one infix
      node over the two operands. */
  lemma OneOperation(ts: seq<Token>, pos: nat, prec: Precedence, left: Expression)
    requires pos + 2 < |ts| && IsBinaryOperator(ts[pos + 1].kind) && IsLiteral(ts[pos + 2].kind)
    requires Below(prec, FromTok(ts[pos + 1].kind).value)
    requires !Below(FromTok(ts[pos + 1].kind).value, PeekPrecedence(ts, pos + 2))
    ensures InfixLoop(ts, pos, prec, left) ==
      InfixLoop(ts, pos + 2, prec, InfixExpression(ts[pos + 1], left, Literal(ts[pos + 2])))
  {
    var op := FromTok(ts[pos + 1].kind).value;
    LastLiteral(ts, pos + 2, op);
    BinaryInfix(ts, pos + 1, left, Literal(ts[pos + 2]), pos + 2);
    LoopStep(ts, pos, prec, left, InfixExpression(ts[pos + 1], left, Literal(ts[pos + 2])), pos + 2);
  }

  // ---------------------------------------------------------------------------------------
  // Precedence and grouping

  /** The right operand of `2 + 2 * 3`, parsed at the precedence of `+`. */
  lemma RightProduct(ts: seq<Token>)
    requires |ts| == 5 && ts[2].kind == Integer(2) && ts[3].kind == Asterisk && ts[4].kind == Integer(3)
    ensures ParseExpression(ts, 2, SUM, None) ==
      Ok(Some(InfixExpression(ts[3], IntegerLiteral(ts[2]), IntegerLiteral(ts[4]))), 4)
  {
    var mul := InfixExpression(ts[3], IntegerLiteral(ts[2]), IntegerLiteral(ts[4]));
    OneOperation(ts, 2, SUM, IntegerLiteral(ts[2]));
    LoopStops(ts, 4, SUM, mul);
    LiteralOperand(ts, 2, SUM);
  }

  /** `2 + 2 * 3`: the product binds tighter and nests on the right. */
  lemma ProductBindsTighter(ts: seq<Token>)
    requires |ts| == 5 && ts[0].kind == Integer(2) && ts[1].kind == Plus && ts[2].kind == Integer(2)
    requires ts[3].kind == Asterisk && ts[4].kind == Integer(3)
    ensures Parse(ts) == Some(Program([ExpressionStatement(ts[0],
      InfixExpression(ts[1], IntegerLiteral(ts[0]), InfixExpression(ts[3], IntegerLiteral(ts[2]), IntegerLiteral(ts[4]))))]))
  {
    var mul := InfixExpression(ts[3], IntegerLiteral(ts[2]), IntegerLiteral(ts[4]));
    var add := InfixExpression(ts[1], IntegerLiteral(ts[0]), mul);
    RightProduct(ts);
    BinaryInfix(ts, 1, IntegerLiteral(ts[0]), mul, 4);
    LoopStep(ts, 0, LOWEST, IntegerLiteral(ts[0]), add, 4);
    LoopStops(ts, 4, LOWEST, add);
    LiteralOperand(ts, 0, LOWEST);
    ExpressionStatementAt(ts, 0, add, 4);
    OneStatement(ts, ExpressionStatement(ts[0], add), 4);
  }

  /** `2 - 3 - 4`: operators of equal precedence group to the left. */
  lemma EqualPrecedenceGroupsLeft(ts: seq<Token>)
    requires |ts| == 5 && ts[0].kind == Integer(2) && ts[1].kind == Minus && ts[2].kind == Integer(3)
    requires ts[3].kind == Minus && ts[4].kind == Integer(4)
    ensures Parse(ts) == Some(Program([ExpressionStatement(ts[0],
      InfixExpression(ts[3], InfixExpression(ts[1], IntegerLiteral(ts[0]), IntegerLiteral(ts[2])), IntegerLiteral(ts[4])))]))
  {
    var first := InfixExpression(ts[1], IntegerLiteral(ts[0]), IntegerLiteral(ts[2]));
    var second := InfixExpression(ts[3], first, IntegerLiteral(ts[4]));
    OneOperation(ts, 0, LOWEST, IntegerLiteral(ts[0]));
    OneOperation(ts, 2, LOWEST, first);
    LoopStops(ts, 4, LOWEST, second);
    LiteralOperand(ts, 0, LOWEST);
    ExpressionStatementAt(ts, 0, second, 4);
    OneStatement(ts, ExpressionStatement(ts[0], second), 4);
  }

  /** The inside of `(2 + 2) * 3`. */
  lemma GroupedSum(ts: seq<Token>)
    requires |ts| == 7 && ts[0].kind == LParen && ts[1].kind == Integer(2) && ts[2].kind == Plus
    requires ts[3].kind == Integer(2) && ts[4].kind == RParen
    ensures ParseExpression(ts, 1, LOWEST, None) ==
      Ok(Some(InfixExpression(ts[2], IntegerLiteral(ts[1]), IntegerLiteral(ts[3]))), 3)
  {
    var add := InfixExpression(ts[2], IntegerLiteral(ts[1]), IntegerLiteral(ts[3]));
    OneOperation(ts, 1, LOWEST, IntegerLiteral(ts[1]));
    LoopStops(ts, 3, LOWEST, add);
    LiteralOperand(ts, 1, LOWEST);
  }

  /** `(2 + 2) * 3`: a grouped expression is the inner expression itself, so the sum ends
      up under the product. */
  lemma GroupingOverridesPrecedence(ts: seq<Token>)
    requires |ts| == 7 && ts[0].kind == LParen && ts[1].kind == Integer(2) && ts[2].kind == Plus
    requires ts[3].kind == Integer(2) && ts[4].kind == RParen && ts[5].kind == Asterisk && ts[6].kind == Integer(3)
    ensures Parse(ts) == Some(Program([ExpressionStatement(ts[0],
      InfixExpression(ts[5], InfixExpression(ts[2], IntegerLiteral(ts[1]), IntegerLiteral(ts[3])), IntegerLiteral(ts[6])))]))
  {
    var add := InfixExpression(ts[2], IntegerLiteral(ts[1]), IntegerLiteral(ts[3]));
    var mul := InfixExpression(ts[5], add, IntegerLiteral(ts[6]));
    GroupedSum(ts);
    OneOperation(ts, 4, LOWEST, add);
    LoopStops(ts, 6, LOWEST, mul);
    GroupedOperand(ts, 0, LOWEST, add, 3);
    ExpressionStatementAt(ts, 0, mul, 6);
    OneStatement(ts, ExpressionStatement(ts[0], mul), 6);
  }

  /** `2 == 3`: `==` has the lowest precedence, so the expression statement ends after `2`,
      no statement starts at `==`, and the program keeps only the first statement. */
  lemma DoubleEqualEndsTheProgram(ts: seq<Token>)
    requires |ts| == 3 && ts[0].kind == Integer(2) && ts[1].kind == DoubleEqual && ts[2].kind == Integer(3)
    ensures Parse(ts) == Some(Program([ExpressionStatement(ts[0], IntegerLiteral(ts[0]))]))
  {
    LastLiteral(ts, 0, LOWEST);
    ExpressionStatementAt(ts, 0, IntegerLiteral(ts[0]), 0);
    NoStatementAt(ts, 1);
    OneStatement(ts, ExpressionStatement(ts[0], IntegerLiteral(ts[0])), 0);
  }

  // ---------------------------------------------------------------------------------------
  // Identifier statements

  /** The identifier chain of `x, z := 3 + 2`. */
  lemma DestructuringNames(ts: seq<Token>)
    requires |ts| == 7 && ts[0].kind == Ident("x") && ts[1].kind == Comma && ts[2].kind == Ident("z")
    requires ts[3].kind == ColonEqual
    ensures ParseIdentLiterals(ts, 0) == Ok(([ts[0], ts[2]], Destructuring), 3)
  {
    ChainStep(ts, 0, [ts[0]], Destructuring);
    assert [ts[0]] + [ts[2]] == [ts[0], ts[2]];
    ChainEnds(ts, 2, [ts[0], ts[2]], Destructuring);
  }

  /** The value of `x, z := 3 + 2`. */
  lemma DestructuringValue(ts: seq<Token>)
    requires |ts| == 7 && ts[4].kind == Integer(3) && ts[5].kind == Plus && ts[6].kind == Integer(2)
    ensures ParseExpression(ts, 4, LOWEST, None) ==
      Ok(Some(InfixExpression(ts[5], IntegerLiteral(ts[4]), IntegerLiteral(ts[6]))), 6)
  {
    OneOperation(ts, 4, LOWEST, IntegerLiteral(ts[4]));
    LoopStops(ts, 6, LOWEST, InfixExpression(ts[5], IntegerLiteral(ts[4]), IntegerLiteral(ts[6])));
    LiteralOperand(ts, 4, LOWEST);
  }

  /** `x, z := 3 + 2`: the definition holds exactly the scanned identifiers. */
  lemma DestructuringDefinition(ts: seq<Token>)
    requires |ts| == 7 && ts[0].kind == Ident("x") && ts[1].kind == Comma && ts[2].kind == Ident("z")
    requires ts[3].kind == ColonEqual && ts[4].kind == Integer(3) && ts[5].kind == Plus && ts[6].kind == Integer(2)
    ensures Parse(ts) == Some(Program([AssignStatement(ts[3],
      InfixExpression(ts[5], IntegerLiteral(ts[4]), IntegerLiteral(ts[6])), DefinitionIdentifier([ts[0], ts[2]]))]))
  {
    var add := InfixExpression(ts[5], IntegerLiteral(ts[4]), IntegerLiteral(ts[6]));
    var s := AssignStatement(ts[3], add, DefinitionIdentifier([ts[0], ts[2]]));
    DestructuringNames(ts);
    DestructuringValue(ts);
    DefinitionStatement(ts, 0, [ts[0], ts[2]], Destructuring, 3, add, 6);
    IdentifierDispatch(ts, 0);
    OneStatement(ts, s, 6);
  }

  /** `m.e = "3"`: an update names the dotted path. */
  lemma PathUpdate(ts: seq<Token>)
    requires |ts| == 5 && ts[0].kind == Ident("m") && ts[1].kind == Period && ts[2].kind == Ident("e")
    requires ts[3].kind == Equal && ts[4].kind == String("3")
    ensures Parse(ts) == Some(Program([UpdateStatement(ts[3], StringLiteral(ts[4]), NormalIdentifier([ts[0], ts[2]]))]))
  {
    var s := UpdateStatement(ts[3], StringLiteral(ts[4]), NormalIdentifier([ts[0], ts[2]]));
    ChainStep(ts, 0, [ts[0]], Destructuring);
    assert [ts[0]] + [ts[2]] == [ts[0], ts[2]];
    ChainEnds(ts, 2, [ts[0], ts[2]], Normal);
    LastLiteral(ts, 4, LOWEST);
    UpdateStatementAt(ts, 0, [ts[0], ts[2]], Normal, 3, StringLiteral(ts[4]), 4);
    IdentifierDispatch(ts, 0);
    OneStatement(ts, s, 4);
  }

  /** `x :=` with nothing after the operator stops the parser. */
  lemma MissingDefinitionValueFails(ts: seq<Token>)
    requires |ts| == 2 && ts[0].kind == Ident("x") && ts[1].kind == ColonEqual
    ensures Parse(ts) == None
  {
    ChainEnds(ts, 0, [ts[0]], Destructuring);
    assert ParseIdentifierStatement(ts, 0) == Fail;
  }

  /** `import 5`: the imported name is the next token, whatever its kind. */
  lemma ImportTakesAnyToken(ts: seq<Token>)
    requires |ts| == 2 && ts[0].kind == Import
    ensures Parse(ts) == Some(Program([ImportStatement(ts[0], ts[1])]))
  {
    OneStatement(ts, ImportStatement(ts[0], ts[1]), 1);
  }

  // ---------------------------------------------------------------------------------------
  // Calls

  /** The list loop of `f(1, 2, 3)` after its first argument. */
  lemma CallArgumentsAfterFirst(ts: seq<Token>, one: Expression)
    requires |ts| == 8 && ts[3].kind == Comma
    requires ts[4].kind == Integer(2) && ts[5].kind == Comma && ts[6].kind == Integer(3) && ts[7].kind == RParen
    ensures ListRest(ts, 3, RParen, [one]) == Ok([one, IntegerLiteral(ts[4]), IntegerLiteral(ts[6])], 7)
  {
    var two, three := IntegerLiteral(ts[4]), IntegerLiteral(ts[6]);
    ListSkip(ts, 3, RParen, [one]);
    LastLiteral(ts, 4, LOWEST);
    ListElement(ts, 4, RParen, [one], two, 4);
    assert [one] + [two] == [one, two];
    CallArgumentsLast(ts, [one, two]);
    assert [one, two] + [three] == [one, two, three];
  }

  lemma CallArgumentsLast(ts: seq<Token>, acc: seq<Expression>)
    requires |ts| == 8 && ts[5].kind == Comma && ts[6].kind == Integer(3) && ts[7].kind == RParen
    ensures ListRest(ts, 5, RParen, acc) == Ok(acc + [IntegerLiteral(ts[6])], 7)
  {
    ListSkip(ts, 5, RParen, acc);
    LastLiteral(ts, 6, LOWEST);
    ListElement(ts, 6, RParen, acc, IntegerLiteral(ts[6]), 6);
  }

  /** The argument list of `f(1, 2, 3)`: three elements in order, the commas skipped. */
  lemma CallArgumentList(ts: seq<Token>)
    requires |ts| == 8 && ts[1].kind == LParen && ts[2].kind == Integer(1) && ts[3].kind == Comma
    requires ts[4].kind == Integer(2) && ts[5].kind == Comma && ts[6].kind == Integer(3) && ts[7].kind == RParen
    ensures ParseExpressionList(ts, 1, RParen) == Ok([IntegerLiteral(ts[2]), IntegerLiteral(ts[4]), IntegerLiteral(ts[6])], 7)
  {
    var one := IntegerLiteral(ts[2]);
    LastLiteral(ts, 2, LOWEST);
    ListFirst(ts, 1, RParen, one, 2);
    CallArgumentsAfterFirst(ts, one);
  }

  /** The expression of a call statement `f(...)` whose argument list ends at `q`. */
  lemma CallOfScannedName(ts: seq<Token>, args: seq<Expression>, q: nat)
    requires 1 < |ts| && ts[0].kind.Ident? && ts[1].kind == LParen
    requires ParseExpressionList(ts, 1, RParen) == Ok(args, q)
    requires !Below(LOWEST, PeekPrecedence(ts, q))
    ensures ParseExpressionStatement(ts, 0, Some([ts[0]])) ==
      Ok(Some(ExpressionStatement(ts[0], CallExpression(ts[1], args, NormalIdentifier([ts[0]])))), q)
  {
    var f := NormalIdentifier([ts[0]]);
    var call := CallExpression(ts[1], args, f);
    CallInfix(ts, 1, f, args, q);
    LoopStep(ts, 0, LOWEST, f, call, q);
    LoopStops(ts, q, LOWEST, call);
    ScannedOperand(ts, 0, LOWEST, [ts[0]]);
    ExpressionStatementOf(ts, 0, Some([ts[0]]), call, q);
  }

  /** A call statement `f(...)` whose argument list ends at `q`: the identifier statement
      reparses `f` as an expression and reuses the scanned path. */
  lemma CallStatement(ts: seq<Token>, args: seq<Expression>, q: nat)
    requires 1 < |ts| && ts[0].kind.Ident? && ts[1].kind == LParen
    requires ParseExpressionList(ts, 1, RParen) == Ok(args, q)
    requires !Below(LOWEST, PeekPrecedence(ts, q))
    ensures ParseStatement(ts, 0) ==
      Ok(Some(ExpressionStatement(ts[0], CallExpression(ts[1], args, NormalIdentifier([ts[0]])))), q)
  {
    CallOfScannedName(ts, args, q);
    SingleNameStatement(ts, 0, Some(ExpressionStatement(ts[0], CallExpression(ts[1], args, NormalIdentifier([ts[0]])))), q);
  }

  /** `f(1, 2, 3)`: three arguments in order; the commas are skipped, not checked. */
  lemma CallArguments(ts: seq<Token>)
    requires |ts| == 8 && ts[0].kind == Ident("f") && ts[1].kind == LParen && ts[2].kind == Integer(1)
    requires ts[3].kind == Comma && ts[4].kind == Integer(2) && ts[5].kind == Comma && ts[6].kind == Integer(3)
    requires ts[7].kind == RParen
    ensures Parse(ts) == Some(Program([ExpressionStatement(ts[0], CallExpression(ts[1],
      [IntegerLiteral(ts[2]), IntegerLiteral(ts[4]), IntegerLiteral(ts[6])], NormalIdentifier([ts[0]])))]))
  {
    var args := [IntegerLiteral(ts[2]), IntegerLiteral(ts[4]), IntegerLiteral(ts[6])];
    CallArgumentList(ts);
    CallStatement(ts, args, 7);
    OneStatement(ts, ExpressionStatement(ts[0], CallExpression(ts[1], args, NormalIdentifier([ts[0]]))), 7);
  }

  /** `f(1` with no closing parenthesis is accepted: the list loop also ends when the tokens
      run out. */
  lemma UnclosedCallAccepted(ts: seq<Token>)
    requires |ts| == 3 && ts[0].kind == Ident("f") && ts[1].kind == LParen && ts[2].kind == Integer(1)
    ensures Parse(ts) == Some(Program([ExpressionStatement(ts[0],
      CallExpression(ts[1], [IntegerLiteral(ts[2])], NormalIdentifier([ts[0]])))]))
  {
    LastLiteral(ts, 2, LOWEST);
    ListFirst(ts, 1, RParen, IntegerLiteral(ts[2]), 2);
    assert ListRest(ts, 3, RParen, [IntegerLiteral(ts[2])]) == Ok([IntegerLiteral(ts[2])], 3);
    CallStatement(ts, [IntegerLiteral(ts[2])], 3);
    OneStatement(ts, ExpressionStatement(ts[0], CallExpression(ts[1], [IntegerLiteral(ts[2])], NormalIdentifier([ts[0]]))), 3);
  }

  // ---------------------------------------------------------------------------------------
  // Function literals

  /** `x + 1` at `pos`, followed by nothing that binds. */
  lemma NamePlusLiteral(ts: seq<Token>, pos: nat)
    requires pos + 2 < |ts| && ts[pos].kind.Ident? && ts[pos + 1].kind == Plus && IsLiteral(ts[pos + 2].kind)
    requires !Below(LOWEST, PeekPrecedence(ts, pos + 2))
    ensures ParseExpression(ts, pos, LOWEST, None) ==
      Ok(Some(InfixExpression(ts[pos + 1], NormalIdentifier([ts[pos]]), Literal(ts[pos + 2]))), pos + 2)
  {
    var x := NormalIdentifier([ts[pos]]);
    var sum := InfixExpression(ts[pos + 1], x, Literal(ts[pos + 2]));
    OneOperation(ts, pos, LOWEST, x);
    LoopStops(ts, pos + 2, LOWEST, sum);
    NameOperand(ts, pos, LOWEST);
  }

  /** `|x| -> x + 1`: the body is a block, carrying the body's first token, that holds one
      return of the expression. */
  lemma ShorthandFunction(ts: seq<Token>)
    requires |ts| == 7 && ts[0].kind == Bar && ts[1].kind == Ident("x") && ts[2].kind == Bar && ts[3].kind == Arrow
    requires ts[4].kind == Ident("x") && ts[5].kind == Plus && ts[6].kind == Integer(1)
    ensures ParseFunctionExpression(ts, 0) == Ok(FunctionLiteral(ts[0], DefinitionIdentifier([ts[1]]),
      BlockStatement(ts[4], [ReturnStatement(ts[4], InfixExpression(ts[5], NormalIdentifier([ts[4]]), IntegerLiteral(ts[6])))])), 7)
  {
    OneParameter(ts, 0);
    NamePlusLiteral(ts, 4);
    ShorthandBody(ts, 4, ts[0], [ts[1]], InfixExpression(ts[5], NormalIdentifier([ts[4]]), IntegerLiteral(ts[6])), 6);
  }

  /** `|x| -> { return x + 1 }`: the same shape from an explicit block. */
  lemma BlockFunction(ts: seq<Token>)
    requires |ts| == 10 && ts[0].kind == Bar && ts[1].kind == Ident("x") && ts[2].kind == Bar && ts[3].kind == Arrow
    requires ts[4].kind == LBrace && ts[5].kind == Return && ts[6].kind == Ident("x") && ts[7].kind == Plus
    requires ts[8].kind == Integer(1) && ts[9].kind == RBrace
    ensures ParseFunctionExpression(ts, 0) == Ok(FunctionLiteral(ts[0], DefinitionIdentifier([ts[1]]),
      BlockStatement(ts[4], [ReturnStatement(ts[5], InfixExpression(ts[7], NormalIdentifier([ts[6]]), IntegerLiteral(ts[8])))])), 9)
  {
    var ret := ReturnStatement(ts[5], InfixExpression(ts[7], NormalIdentifier([ts[6]]), IntegerLiteral(ts[8])));
    OneParameter(ts, 0);
    NamePlusLiteral(ts, 6);
    ReturnStatementAt(ts, 5, InfixExpression(ts[7], NormalIdentifier([ts[6]]), IntegerLiteral(ts[8])), 8);
    BlockStep(ts, 5, RBrace, ts[4], [], ret, 8);
    assert [] + [ret] == [ret];
    BlockBody(ts, 4, ts[0], [ts[1]], BlockStatement(ts[4], [ret]), 9);
  }

  // ---------------------------------------------------------------------------------------
  // Match expressions

  /** A clause `_ -> n` at `pos` followed by a token with the lowest precedence. */
  lemma DefaultLiteralClause(ts: seq<Token>, pos: nat)
    requires pos + 3 < |ts| && ts[pos].kind == Underscore && ts[pos + 1].kind == Arrow && ts[pos + 2].kind.Integer?
    requires FromTok(ts[pos + 3].kind) == Some(LOWEST)
    ensures MatchClause(ts, pos) == Ok(DefaultClause(Shorthand(ts[pos + 1], IntegerLiteral(ts[pos + 2]))), pos + 2)
  {
    LastLiteral(ts, pos + 2, LOWEST);
    DefaultClauseAt(ts, pos, IntegerLiteral(ts[pos + 2]), pos + 2);
  }

  /** The second clause of `x match { _ -> 1, _ -> 2 }` replaces whatever default came before. */
  lemma SecondDefaultClause(ts: seq<Token>, default: Option<Statement>)
    requires |ts| == 11 && ts[7].kind == Underscore && ts[8].kind == Arrow && ts[9].kind == Integer(2)
    requires ts[10].kind == RBrace
    ensures MatchClauses(ts, 7, ts[1], default, []) ==
      Ok(MatchExpression(ts[1], Some(Shorthand(ts[8], IntegerLiteral(ts[9]))), []), 9)
  {
    DefaultLiteralClause(ts, 7);
    ClausesDefault(ts, 7, ts[1], default, [], Shorthand(ts[8], IntegerLiteral(ts[9])), 9);
    ClausesEnd(ts, 9, ts[1], Some(Shorthand(ts[8], IntegerLiteral(ts[9]))), []);
  }

  /** The clauses of `x match { _ -> 1, _ -> 2 }`. */
  lemma TwoDefaultClauses(ts: seq<Token>)
    requires |ts| == 11 && ts[3].kind == Underscore && ts[4].kind == Arrow && ts[5].kind == Integer(1)
    requires ts[6].kind == Comma && ts[7].kind == Underscore && ts[8].kind == Arrow && ts[9].kind == Integer(2)
    requires ts[10].kind == RBrace
    ensures MatchClauses(ts, 3, ts[1], None, []) ==
      Ok(MatchExpression(ts[1], Some(Shorthand(ts[8], IntegerLiteral(ts[9]))), []), 9)
  {
    DefaultLiteralClause(ts, 3);
    ClausesDefault(ts, 3, ts[1], None, [], Shorthand(ts[4], IntegerLiteral(ts[5])), 5);
    SecondDefaultClause(ts, Some(Shorthand(ts[4], IntegerLiteral(ts[5]))));
  }

  /** A match statement `x match { ... }` whose clauses end at `q`, before the `}`. */
  lemma MatchOfScannedName(ts: seq<Token>, m: Expression, q: nat)
    requires 2 < |ts| && ts[0].kind.Ident? && ts[1].kind == Match && ts[2].kind == LBrace
    requires MatchClauses(ts, 3, ts[1], None, []) == Ok(m, q)
    requires !Below(LOWEST, PeekPrecedence(ts, q))
    ensures ParseStatement(ts, 0) == Ok(Some(ExpressionStatement(ts[0], m)), q)
  {
    var x := NormalIdentifier([ts[0]]);
    MatchInfix(ts, 1, x, m, q);
    LoopStep(ts, 0, LOWEST, x, m, q);
    LoopStops(ts, q, LOWEST, m);
    ScannedOperand(ts, 0, LOWEST, [ts[0]]);
    ExpressionStatementOf(ts, 0, Some([ts[0]]), m, q);
    SingleNameStatement(ts, 0, Some(ExpressionStatement(ts[0], m)), q);
  }

  /** `x match { _ -> 1, _ -> 2 }`: the second `_` clause replaces the first as the
      default, no pair is recorded, and the scrutinee `x` is not kept. */
  lemma LaterDefaultWins(ts: seq<Token>)
    requires |ts| == 11 && ts[0].kind == Ident("x") && ts[1].kind == Match && ts[2].kind == LBrace
    requires ts[3].kind == Underscore && ts[4].kind == Arrow && ts[5].kind == Integer(1)
    requires ts[6].kind == Comma && ts[7].kind == Underscore && ts[8].kind == Arrow && ts[9].kind == Integer(2)
    requires ts[10].kind == RBrace
    ensures Parse(ts) == Some(Program([ExpressionStatement(ts[0],
      MatchExpression(ts[1], Some(Shorthand(ts[8], IntegerLiteral(ts[9]))), []))]))
  {
    var m := MatchExpression(ts[1], Some(Shorthand(ts[8], IntegerLiteral(ts[9]))), []);
    TwoDefaultClauses(ts);
    MatchOfScannedName(ts, m, 9);
    NoStatementAt(ts, 10);
    OneStatement(ts, ExpressionStatement(ts[0], m), 9);
  }

  /** The clause `1, 2 -> 3` of `x match { 1, 2 -> 3 }`. */
  lemma TwoPredicateClause(ts: seq<Token>)
    requires |ts| == 9 && ts[3].kind == Integer(1) && ts[4].kind == Comma && ts[5].kind == Integer(2)
    requires ts[6].kind == Arrow && ts[7].kind == Integer(3) && ts[8].kind == RBrace
    ensures MatchClause(ts, 3) == Ok(PairClause(MatchPair([IntegerLiteral(ts[3]), IntegerLiteral(ts[5])],
      Shorthand(ts[6], IntegerLiteral(ts[7])))), 7)
  {
    var one, two, three := IntegerLiteral(ts[3]), IntegerLiteral(ts[5]), IntegerLiteral(ts[7]);
    LastLiteral(ts, 3, LOWEST);
    LastLiteral(ts, 5, LOWEST);
    LastLiteral(ts, 7, LOWEST);
    PredicateStep(ts, 3, [one], two, 5);
    PredicatesEnd(ts, 5, [one, two]);
    assert [one] + [two] == [one, two];
    PairClauseAt(ts, 3, one, 3, [one, two], 5, three, 7);
  }

  /** The clauses of `x match { 1, 2 -> 3 }`. */
  lemma OnePairClause(ts: seq<Token>)
    requires |ts| == 9 && ts[3].kind == Integer(1) && ts[4].kind == Comma && ts[5].kind == Integer(2)
    requires ts[6].kind == Arrow && ts[7].kind == Integer(3) && ts[8].kind == RBrace
    ensures MatchClauses(ts, 3, ts[1], None, []) == Ok(MatchExpression(ts[1], None,
      [MatchPair([IntegerLiteral(ts[3]), IntegerLiteral(ts[5])], Shorthand(ts[6], IntegerLiteral(ts[7])))]), 7)
  {
    var pair := MatchPair([IntegerLiteral(ts[3]), IntegerLiteral(ts[5])], Shorthand(ts[6], IntegerLiteral(ts[7])));
    TwoPredicateClause(ts);
    ClausesPair(ts, 3, ts[1], None, [], pair, 7);
    assert [] + [pair] == [pair];
    ClausesEnd(ts, 7, ts[1], None, [pair]);
  }

  /** `x match { 1, 2 -> 3 }`: one pair clause holding both predicates, in order, and the
      shorthand body that returns `3`; there is no default. */
  lemma PairClauseTwoPredicates(ts: seq<Token>)
    requires |ts| == 9 && ts[0].kind == Ident("x") && ts[1].kind == Match && ts[2].kind == LBrace
    requires ts[3].kind == Integer(1) && ts[4].kind == Comma && ts[5].kind == Integer(2)
    requires ts[6].kind == Arrow && ts[7].kind == Integer(3) && ts[8].kind == RBrace
    ensures Parse(ts) == Some(Program([ExpressionStatement(ts[0], MatchExpression(ts[1], None,
      [MatchPair([IntegerLiteral(ts[3]), IntegerLiteral(ts[5])], Shorthand(ts[6], IntegerLiteral(ts[7])))]))]))
  {
    var pair := MatchPair([IntegerLiteral(ts[3]), IntegerLiteral(ts[5])], Shorthand(ts[6], IntegerLiteral(ts[7])));
    var m := MatchExpression(ts[1], None, [pair]);
    OnePairClause(ts);
    MatchOfScannedName(ts, m, 7);
    NoStatementAt(ts, 8);
    OneStatement(ts, ExpressionStatement(ts[0], m), 7);
  }

  // ---------------------------------------------------------------------------------------
  // Adjacent identifiers

  /** `x y`: the chain loop stops on `x` and consumes `y`, which is an identifier, so the
      cursor does not step back; the expression statement is parsed at `y` with the path
      `x`, and `y` itself is lost. */
  lemma AdjacentNames(ts: seq<Token>)
    requires |ts| == 2 && ts[0].kind.Ident? && ts[1].kind.Ident?
    ensures Parse(ts) == Some(Program([ExpressionStatement(ts[1], NormalIdentifier([ts[0]]))]))
  {
    var x := NormalIdentifier([ts[0]]);
    ChainEnds(ts, 0, [ts[0]], Destructuring);
    ScannedOperand(ts, 1, LOWEST, [ts[0]]);
    LoopStops(ts, 1, LOWEST, x);
    ExpressionStatementOf(ts, 1, Some([ts[0]]), x, 1);
    assert ParseIdentifierStatement(ts, 0) == ParseExpressionStatement(ts, 1, Some([ts[0]]));
    IdentifierDispatch(ts, 0);
    OneStatement(ts, ExpressionStatement(ts[1], x), 1);
  }

  /** `x y := 1`: the definition is of `x` alone. */
  lemma AdjacentNamesDefinition(ts: seq<Token>)
    requires |ts| == 4 && ts[0].kind.Ident? && ts[1].kind.Ident? && ts[2].kind == ColonEqual
    requires ts[3].kind.Integer?
    ensures Parse(ts) == Some(Program([AssignStatement(ts[2], IntegerLiteral(ts[3]), DefinitionIdentifier([ts[0]]))]))
  {
    var s := AssignStatement(ts[2], IntegerLiteral(ts[3]), DefinitionIdentifier([ts[0]]));
    ChainEnds(ts, 0, [ts[0]], Destructuring);
    LastLiteral(ts, 3, LOWEST);
    assert Assignment(ts, 2, [ts[0]]) == Ok(Some(s), 3);
    assert ParseIdentifierStatement(ts, 0) == Assignment(ts, 2, [ts[0]]);
    IdentifierDispatch(ts, 0);
    OneStatement(ts, s, 3);
  }

  /** `x y + 1`: parsed as `x + 1`, in a statement that carries `y`. */
  lemma AdjacentNamesSum(ts: seq<Token>)
    requires |ts| == 4 && ts[0].kind.Ident? && ts[1].kind.Ident? && ts[2].kind == Plus
    requires ts[3].kind.Integer?
    ensures Parse(ts) == Some(Program([ExpressionStatement(ts[1],
      InfixExpression(ts[2], NormalIdentifier([ts[0]]), IntegerLiteral(ts[3])))]))
  {
    var x := NormalIdentifier([ts[0]]);
    var sum := InfixExpression(ts[2], x, IntegerLiteral(ts[3]));
    ChainEnds(ts, 0, [ts[0]], Destructuring);
    ScannedOperand(ts, 1, LOWEST, [ts[0]]);
    OneOperation(ts, 1, LOWEST, x);
    LoopStops(ts, 3, LOWEST, sum);
    ExpressionStatementOf(ts, 1, Some([ts[0]]), sum, 3);
    assert ParseIdentifierStatement(ts, 0) == ParseExpressionStatement(ts, 1, Some([ts[0]]));
    IdentifierDispatch(ts, 0);
    OneStatement(ts, ExpressionStatement(ts[1], sum), 3);
  }
}
