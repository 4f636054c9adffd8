/** One-step laws of the parsing functions: what a dispatch or a loop of src/parser.rs does
    at a token of a given kind, for every token sequence and every cursor. A whole parse
    (module ParseExamples) is a chain of these steps. */
module ParseLaws {
  import opened Options
  import opened Tokens
  import opened Ast
  import opened Grammar

  /** The kinds whose prefix rule builds a leaf node without consuming anything. */
  predicate IsLiteral(kind: TokenType) {
    kind.Integer? || kind.Float? || kind.String? || kind == Underscore
  }

  /** The leaf node a literal token becomes. */
  function Literal(t: Token): Expression
    requires IsLiteral(t.kind)
  {
    if t.kind.Integer? then IntegerLiteral(t)
    else if t.kind.Float? then FloatLiteral(t)
    else if t.kind.String? then StringLiteral(t)
    else UnderscoreLiteral(t)
  }

  /** `parse_expression`'s result once its infix loop has run. */
  function Lift(r: Res<Expression>): Res<Option<Expression>> {
    match r
    case Fail => Fail
    case Ok(e, q) => Ok(Some(e), q)
  }

  // ---------------------------------------------------------------------------------------
  // The operator tables

  /** `from_tok` always answers, and only these kinds get a precedence above `LOWEST`. */
  lemma PrecedenceTable(kind: TokenType)
    ensures FromTok(kind).Some?
    ensures FromTok(kind) != Some(LOWEST) <==>
      kind in {Equal, BangEqual, LT, GT, LTEq, GTEq, Or, And, Plus, Minus, Asterisk, Slash, LParen, LBracket, Match}
  {
  }

  /** The tokens that build an infix node: `==` and the compound assignments have infix
      rules but the precedence table gives them `LOWEST`, and `=` has a precedence but no
      infix rule. */
  lemma BinaryOperators(kind: TokenType)
    ensures IsBinaryOperator(kind) <==> kind in {Plus, Minus, Slash, Asterisk, BangEqual, LT, GT, LTEq, GTEq, Or, And}
  {
  }

  /** The infix rules the table leaves at `LOWEST` are never reached: the loop stops before
      such a token at every precedence. */
  lemma UnreachableInfixRules(ts: seq<Token>, pos: nat, prec: Precedence, left: Expression)
    requires pos + 1 < |ts| && ts[pos + 1].kind in {PlusEqual, AsteriskEqual, SlashEqual, DoubleEqual}
    ensures InfixLoop(ts, pos, prec, left) == Ok(left, pos)
  {
  }

  // ---------------------------------------------------------------------------------------
  // Expressions

  /** A literal operand: nothing is consumed and the infix loop starts from the leaf. */
  lemma LiteralOperand(ts: seq<Token>, pos: nat, prec: Precedence)
    requires pos < |ts| && IsLiteral(ts[pos].kind)
    ensures ParseExpression(ts, pos, prec, None) == Lift(InfixLoop(ts, pos, prec, Literal(ts[pos])))
  {
  }

  /** An identifier operand that is not followed by `.`: a one-identifier path. */
  lemma NameOperand(ts: seq<Token>, pos: nat, prec: Precedence)
    requires pos < |ts| && ts[pos].kind.Ident? && (pos + 1 < |ts| ==> ts[pos + 1].kind != Period)
    ensures ParseExpression(ts, pos, prec, None) == Lift(InfixLoop(ts, pos, prec, NormalIdentifier([ts[pos]])))
  {
    assert IdentPath(ts, pos, [ts[pos]]) == Ok([ts[pos]], pos);
  }

  /** An identifier operand whose path an identifier statement has already scanned: the
      path is used as it is and the loop starts at the same cursor. */
  lemma ScannedOperand(ts: seq<Token>, pos: nat, prec: Precedence, idents: seq<Token>)
    requires pos < |ts| && ts[pos].kind.Ident?
    ensures ParseExpression(ts, pos, prec, Some(idents)) == Lift(InfixLoop(ts, pos, prec, NormalIdentifier(idents)))
  {
  }

  /** A grouped operand: the inner expression, then the `)` after it; the infix loop
      starts at the `)`. */
  lemma GroupedOperand(ts: seq<Token>, pos: nat, prec: Precedence, e: Expression, q: nat)
    requires pos < |ts| && ts[pos].kind == LParen
    requires ParseExpression(ts, pos + 1, LOWEST, None) == Ok(Some(e), q)
    requires q + 1 < |ts| && ts[q + 1].kind == RParen
    ensures ParseExpression(ts, pos, prec, None) == Lift(InfixLoop(ts, q + 1, prec, e))
  {
    var r := ParseExpression(ts, pos + 1, LOWEST, None);
    assert r.Ok? && r.value.Some? && r.value.value == e && r.pos == q;
    assert ParsePrefix(ts, pos, None) == Ok(e, q + 1);
  }

  /** The infix loop stops when the peek token does not bind tighter than `prec`. */
  lemma LoopStops(ts: seq<Token>, pos: nat, prec: Precedence, left: Expression)
    requires !Below(prec, PeekPrecedence(ts, pos))
    ensures InfixLoop(ts, pos, prec, left) == Ok(left, pos)
  {
  }

  /** One round of the infix loop: when the peek token binds tighter than `prec` and has
      an infix rule, that rule extends the expression so far and the loop goes on after it. */
  lemma LoopStep(ts: seq<Token>, pos: nat, prec: Precedence, left: Expression, e: Expression, q: nat)
    requires pos + 1 < |ts| && Below(prec, FromTok(ts[pos + 1].kind).value) && HasInfix(ts[pos + 1].kind)
    requires ParseInfix(ts, pos + 1, left) == Ok(e, q)
    ensures InfixLoop(ts, pos, prec, left) == InfixLoop(ts, q, prec, e)
  {
    assert PeekPrecedence(ts, pos) == FromTok(ts[pos + 1].kind).value;
    var r := ParseInfix(ts, pos + 1, left);
    assert r.Ok? && r.value == e && r.pos == q;
  }

  /** A binary operator takes the expression so far as its left operand and, as its right
      operand, the expression parsed at the operator's own precedence. */
  lemma BinaryInfix(ts: seq<Token>, pos: nat, left: Expression, right: Expression, q: nat)
    requires pos < |ts| && IsBinaryOperator(ts[pos].kind)
    requires ParseExpression(ts, pos + 1, FromTok(ts[pos].kind).value, None) == Ok(Some(right), q)
    ensures ParseInfix(ts, pos, left) == Ok(InfixExpression(ts[pos], left, right), q)
  {
    var r := ParseExpression(ts, pos + 1, FromTok(ts[pos].kind).value, None);
    assert r.Ok? && r.value.Some? && r.value.value == right && r.pos == q;
    assert ParseInfixExpression(ts, pos, left) == Ok(InfixExpression(ts[pos], left, right), q);
  }

  /** `(` calls the expression so far with the argument list. */
  lemma CallInfix(ts: seq<Token>, pos: nat, callee: Expression, args: seq<Expression>, q: nat)
    requires pos < |ts| && ts[pos].kind == LParen
    requires ParseExpressionList(ts, pos, RParen) == Ok(args, q)
    ensures ParseInfix(ts, pos, callee) == Ok(CallExpression(ts[pos], args, callee), q)
  {
    var r := ParseExpressionList(ts, pos, RParen);
    assert r.Ok? && r.value == args && r.pos == q;
  }

  /** `match {` starts the clause loop after the `{`; the expression so far is dropped. */
  lemma MatchInfix(ts: seq<Token>, pos: nat, scrutinee: Expression, m: Expression, q: nat)
    requires pos + 1 < |ts| && ts[pos].kind == Match && ts[pos + 1].kind == LBrace
    requires MatchClauses(ts, pos + 2, ts[pos], None, []) == Ok(m, q)
    ensures ParseInfix(ts, pos, scrutinee) == Ok(m, q)
  {
    var r := MatchClauses(ts, pos + 2, ts[pos], None, []);
    assert r.Ok? && r.value == m && r.pos == q;
    assert ParseMatchExpression(ts, pos, scrutinee) == Ok(m, q);
  }

  // ---------------------------------------------------------------------------------------
  // Expression lists

  /** A list whose terminator does not follow the opener starts with the expression after
      the opener; the list loop resumes one token after it. */
  lemma ListFirst(ts: seq<Token>, pos: nat, end: TokenType, e: Expression, q: nat)
    requires pos + 1 < |ts| && ts[pos + 1].kind != end
    requires ParseExpression(ts, pos + 1, LOWEST, None) == Ok(Some(e), q)
    ensures ParseExpressionList(ts, pos, end) == ListRest(ts, q + 1, end, [e])
  {
    var r := ParseExpression(ts, pos + 1, LOWEST, None);
    assert r.Ok? && r.value.Some? && r.value.value == e && r.pos == q;
  }

  /** In the list loop, an expression at the cursor is appended and one more token is
      consumed after it. */
  lemma ListElement(ts: seq<Token>, pos: nat, end: TokenType, acc: seq<Expression>, e: Expression, q: nat)
    requires pos < |ts| && ts[pos].kind != end
    requires ParseExpression(ts, pos, LOWEST, None) == Ok(Some(e), q)
    ensures ListRest(ts, pos, end, acc) == ListRest(ts, q + 1, end, acc + [e])
  {
  }

  /** In the list loop, a token with no prefix rule (such as a comma) is skipped. */
  lemma ListSkip(ts: seq<Token>, pos: nat, end: TokenType, acc: seq<Expression>)
    requires pos < |ts| && ts[pos].kind != end && !HasPrefix(ts[pos].kind)
    ensures ListRest(ts, pos, end, acc) == ListRest(ts, pos + 1, end, acc)
  {
    var r := ParseExpression(ts, pos, LOWEST, None);
    assert r == Ok(None, pos);
  }

  // ---------------------------------------------------------------------------------------
  // Identifier chains and identifier statements

  /** `.` or `,` followed by an identifier extends the chain; the separator decides the kind. */
  lemma ChainStep(ts: seq<Token>, pos: nat, idents: seq<Token>, kind: IdentTypes)
    requires pos + 2 < |ts| && (ts[pos + 1].kind == Period || ts[pos + 1].kind == Comma) && ts[pos + 2].kind.Ident?
    ensures IdentChain(ts, pos, idents, kind) ==
      IdentChain(ts, pos + 2, idents + [ts[pos + 2]], if ts[pos + 1].kind == Period then Normal else Destructuring)
  {
  }

  /** Any other peek token ends the chain and is consumed. */
  lemma ChainEnds(ts: seq<Token>, pos: nat, idents: seq<Token>, kind: IdentTypes)
    requires pos + 1 < |ts| && ts[pos + 1].kind != Period && ts[pos + 1].kind != Comma
    ensures IdentChain(ts, pos, idents, kind) == Ok((idents, kind), pos + 1)
  {
  }

  /** The `n` identifiers two, four, ... tokens after `pos`: those a chain starting on the
      identifier at `pos` adds. */
  function ChainIdents(ts: seq<Token>, pos: nat, n: nat): seq<Token>
    requires pos + 2 * n < |ts|
    decreases n
  {
    if n == 0 then [] else [ts[pos + 2]] + ChainIdents(ts, pos + 2, n - 1)
  }

  /** The tokens one, three, ... tokens after `pos`, `n` of them, are each `.` or `,`. */
  predicate ChainSeparated(ts: seq<Token>, pos: nat, n: nat)
    requires pos + 2 * n < |ts|
    decreases n
  {
    n == 0 || (ts[pos + 1].kind in {Period, Comma} && ChainSeparated(ts, pos + 2, n - 1))
  }

  /** What the chain loop reads, for every token sequence: it appends the identifiers at
      `pos + 2`, `pos + 4`, ..., each one after a `.` or a `,`. */
  lemma {:induction false} ChainLayout(ts: seq<Token>, pos: nat, idents: seq<Token>, kind: IdentTypes)
    ensures var r := IdentChain(ts, pos, idents, kind);
      r.Ok? ==>
        var n := |r.value.0| - |idents|;
        && |idents| <= |r.value.0|
        && (n > 0 ==> pos + 2 * n < |ts|)
        && (pos + 2 * n < |ts| ==> r.value.0 == idents + ChainIdents(ts, pos, n) && ChainSeparated(ts, pos, n))
    decreases Remaining(ts, pos)
  {
    var r := IdentChain(ts, pos, idents, kind);
    if r.Ok? && pos + 1 < |ts| && ts[pos + 1].kind in {Period, Comma} {
      var next := idents + [ts[pos + 2]];
      var k := if ts[pos + 1].kind == Period then Normal else Destructuring;
      assert r == IdentChain(ts, pos + 2, next, k);
      ChainLayout(ts, pos + 2, next, k);
      var n := |r.value.0| - |idents|;
      assert n >= 1 && pos + 2 + 2 * (n - 1) == pos + 2 * n;
      assert ChainIdents(ts, pos, n) == [ts[pos + 2]] + ChainIdents(ts, pos + 2, n - 1);
      assert idents + ChainIdents(ts, pos, n) == next + ChainIdents(ts, pos + 2, n - 1);
    }
  }

  /** Where the chain loop stops, for every token sequence: on the last identifier, one
      token further when some token follows it (which is then neither `.` nor `,`), with
      the kind the last separator sets. */
  lemma {:induction false} ChainStop(ts: seq<Token>, pos: nat, idents: seq<Token>, kind: IdentTypes)
    ensures var r := IdentChain(ts, pos, idents, kind);
      r.Ok? ==>
        var n := |r.value.0| - |idents|;
        var e := pos + 2 * n;
        && |idents| <= |r.value.0|
        && (n == 0 ==> r.value.1 == kind)
        && (n > 0 ==> e < |ts| && r.value.1 == if ts[e - 1].kind == Period then Normal else Destructuring)
        && r.pos == (if e + 1 < |ts| then e + 1 else e)
        && (e + 1 < |ts| ==> ts[e + 1].kind != Period && ts[e + 1].kind != Comma)
    decreases Remaining(ts, pos)
  {
    var r := IdentChain(ts, pos, idents, kind);
    if pos + 1 >= |ts| {
      assert r == Ok((idents, kind), pos);
    } else if ts[pos + 1].kind != Period && ts[pos + 1].kind != Comma {
      ChainEnds(ts, pos, idents, kind);
    } else if pos + 2 < |ts| && ts[pos + 2].kind.Ident? {
      var next := idents + [ts[pos + 2]];
      var k := if ts[pos + 1].kind == Period then Normal else Destructuring;
      ChainStep(ts, pos, idents, kind);
      ChainStop(ts, pos + 2, next, k);
      if r.Ok? {
        var n := |r.value.0| - |idents|;
        assert n >= 1 && pos + 2 + 2 * (n - 1) == pos + 2 * n;
      }
    }
  }

  /** `:=` right after the scanned chain: a definition of exactly the scanned identifiers,
      whatever separators the chain used. */
  lemma DefinitionStatement(ts: seq<Token>, pos: nat, idents: seq<Token>, kind: IdentTypes, p: nat, e: Expression, q: nat)
    requires pos < |ts| && ts[pos].kind.Ident?
    requires ParseIdentLiterals(ts, pos) == Ok((idents, kind), p)
    requires p < |ts| && ts[p].kind == ColonEqual
    requires ParseExpression(ts, p + 1, LOWEST, None) == Ok(Some(e), q)
    ensures ParseIdentifierStatement(ts, pos) == Ok(Some(AssignStatement(ts[p], e, DefinitionIdentifier(idents))), q)
  {
    assert ParseIdentifierStatement(ts, pos) == Assignment(ts, p, idents);
    assert Assignment(ts, p, idents) == Ok(Some(AssignStatement(ts[p], e, DefinitionIdentifier(idents))), q);
  }

  /** `=` right after the scanned chain: an update of the scanned path. */
  lemma UpdateStatementAt(ts: seq<Token>, pos: nat, idents: seq<Token>, kind: IdentTypes, p: nat, e: Expression, q: nat)
    requires pos < |ts| && ts[pos].kind.Ident?
    requires ParseIdentLiterals(ts, pos) == Ok((idents, kind), p)
    requires p < |ts| && ts[p].kind == Equal
    requires ParseExpression(ts, p + 1, LOWEST, None) == Ok(Some(e), q)
    ensures ParseIdentifierStatement(ts, pos) == Ok(Some(UpdateStatement(ts[p], e, NormalIdentifier(idents))), q)
  {
    assert ParseIdentifierStatement(ts, pos) == Assignment(ts, p, idents);
    assert Assignment(ts, p, idents) == Ok(Some(UpdateStatement(ts[p], e, NormalIdentifier(idents))), q);
  }

  /** Any other token that ends the chain: the cursor steps back onto the chain's last
      identifier and an expression statement is parsed there with the scanned path. */
  lemma ReparsedStatement(ts: seq<Token>, pos: nat, idents: seq<Token>, kind: IdentTypes, p: nat,
                          s: Option<Statement>, q: nat)
    requires pos < |ts| && ts[pos].kind.Ident?
    requires ParseIdentLiterals(ts, pos) == Ok((idents, kind), p)
    requires p < |ts| && !ts[p].kind.Ident? && ts[p].kind != ColonEqual && ts[p].kind != Equal
    requires ParseExpressionStatement(ts, p - 1, Some(idents)) == Ok(s, q)
    ensures ParseIdentifierStatement(ts, pos) == Ok(s, q)
  {
    assert ParseIdentifierStatement(ts, pos) == ParseExpressionStatement(ts, p - 1, Some(idents));
  }

  /** A single identifier followed by a token that neither extends the chain nor assigns:
      the statement is the expression statement parsed at the identifier with the path
      holding just that identifier. */
  lemma SingleNameStatement(ts: seq<Token>, pos: nat, s: Option<Statement>, q: nat)
    requires pos + 1 < |ts| && ts[pos].kind.Ident?
    requires ts[pos + 1].kind != Period && ts[pos + 1].kind != Comma && !ts[pos + 1].kind.Ident?
    requires ts[pos + 1].kind != ColonEqual && ts[pos + 1].kind != Equal
    requires ParseExpressionStatement(ts, pos, Some([ts[pos]])) == Ok(s, q)
    ensures ParseStatement(ts, pos) == Ok(s, q)
  {
    ChainEnds(ts, pos, [ts[pos]], Destructuring);
    ReparsedStatement(ts, pos, [ts[pos]], Destructuring, pos + 1, s, q);
  }

  // ---------------------------------------------------------------------------------------
  // Statements, blocks and the program

  /** An identifier at the cursor starts an identifier statement. */
  lemma IdentifierDispatch(ts: seq<Token>, pos: nat)
    requires pos < |ts| && ts[pos].kind.Ident?
    ensures ParseStatement(ts, pos) == ParseIdentifierStatement(ts, pos)
  {
  }

  /** An expression statement carries the token it starts with. */
  lemma ExpressionStatementOf(ts: seq<Token>, pos: nat, idents: Option<seq<Token>>, e: Expression, q: nat)
    requires pos < |ts|
    requires ParseExpression(ts, pos, LOWEST, idents) == Ok(Some(e), q)
    ensures ParseExpressionStatement(ts, pos, idents) == Ok(Some(ExpressionStatement(ts[pos], e)), q)
  {
    var r := ParseExpression(ts, pos, LOWEST, idents);
    assert r.Ok? && r.value.Some? && r.value.value == e && r.pos == q;
  }

  /** A statement starting with any token but `import`, an identifier or `return` is an
      expression statement carrying that token. */
  lemma ExpressionStatementAt(ts: seq<Token>, pos: nat, e: Expression, q: nat)
    requires pos < |ts| && ts[pos].kind != Import && !ts[pos].kind.Ident? && ts[pos].kind != Return
    requires ParseExpression(ts, pos, LOWEST, None) == Ok(Some(e), q)
    ensures ParseStatement(ts, pos) == Ok(Some(ExpressionStatement(ts[pos], e)), q)
  {
    ExpressionStatementOf(ts, pos, None, e, q);
  }

  /** `return` and the expression after it. */
  lemma ReturnStatementAt(ts: seq<Token>, pos: nat, e: Expression, q: nat)
    requires pos < |ts| && ts[pos].kind == Return
    requires ParseExpression(ts, pos + 1, LOWEST, None) == Ok(Some(e), q)
    ensures ParseStatement(ts, pos) == Ok(Some(ReturnStatement(ts[pos], e)), q)
  {
  }

  /** In the block loop, a statement at the cursor is appended and one more token is
      consumed after it. */
  lemma BlockStep(ts: seq<Token>, pos: nat, end: TokenType, token: Token, acc: seq<Statement>, s: Statement, q: nat)
    requires pos < |ts| && ts[pos].kind != end
    requires ParseStatement(ts, pos) == Ok(Some(s), q)
    ensures BlockStatements(ts, pos, end, token, acc) == BlockStatements(ts, q + 1, end, token, acc + [s])
  {
    var r := ParseStatement(ts, pos);
    assert r.Ok? && r.value == Some(s) && r.pos == q;
  }

  /** No statement starts at a token that has no prefix rule and is not `import`, an
      identifier or `return`. */
  lemma NoStatementAt(ts: seq<Token>, pos: nat)
    requires pos < |ts| && ts[pos].kind != Import && !ts[pos].kind.Ident? && ts[pos].kind != Return
    requires !HasPrefix(ts[pos].kind)
    ensures ParseStatement(ts, pos) == Ok(None, pos)
  {
    assert ParseExpression(ts, pos, LOWEST, None) == Ok(None, pos);
    assert ParseExpressionStatement(ts, pos, None) == Ok(None, pos);
  }

  /** A program holding one statement: the loop keeps it, consumes one token, and stops at
      the next position, where no statement starts. */
  lemma OneStatement(ts: seq<Token>, s: Statement, q: nat)
    requires |ts| > 0
    requires ParseStatement(ts, 0) == Ok(Some(s), q)
    requires ParseStatement(ts, q + 1).Ok? && ParseStatement(ts, q + 1).value.None?
    ensures Parse(ts) == Some(Program([s]))
  {
    assert [] + [s] == [s];
    assert ProgramStatements(ts, 0, q + 1, [s]).Ok?;
  }

  // ---------------------------------------------------------------------------------------
  // Function literals

  /** `| x | ->`: a function literal with one parameter continues with its body after `->`. */
  lemma OneParameter(ts: seq<Token>, pos: nat)
    requires pos + 4 < |ts| && ts[pos].kind == Bar && ts[pos + 1].kind.Ident? && ts[pos + 2].kind == Bar
    requires ts[pos + 3].kind == Arrow
    ensures ParseFunctionExpression(ts, pos) == FunctionBody(ts, pos + 4, ts[pos], [ts[pos + 1]])
  {
    assert ParseIdentLiterals(ts, pos + 1) == Ok(([ts[pos + 1]], Destructuring), pos + 2);
  }

  /** `| | ->`: an empty parameter list needs no check; the body follows the `->`. */
  lemma NoParameters(ts: seq<Token>, pos: nat)
    requires pos + 3 < |ts| && ts[pos].kind == Bar && ts[pos + 1].kind == Bar && ts[pos + 2].kind == Arrow
    ensures ParseFunctionExpression(ts, pos) == FunctionBody(ts, pos + 3, ts[pos], [])
  {
    assert ParseIdentLiterals(ts, pos + 1) == Ok(([], Destructuring), pos + 2);
  }

  /** A body that is not a block becomes a block that returns the single expression, and one
      more token is consumed after it. */
  lemma ShorthandBody(ts: seq<Token>, pos: nat, token: Token, idents: seq<Token>, e: Expression, q: nat)
    requires pos < |ts| && token.kind == Bar && AllIdents(idents) && ts[pos].kind != LBrace
    requires ParseExpression(ts, pos, LOWEST, None) == Ok(Some(e), q)
    ensures FunctionBody(ts, pos, token, idents) ==
      Ok(FunctionLiteral(token, DefinitionIdentifier(idents), Shorthand(ts[pos], e)), q + 1)
  {
  }

  /** A `{` body is an ordinary block up to `}`. */
  lemma BlockBody(ts: seq<Token>, pos: nat, token: Token, idents: seq<Token>, body: Statement, q: nat)
    requires pos < |ts| && token.kind == Bar && AllIdents(idents) && ts[pos].kind == LBrace
    requires BlockStatements(ts, pos + 1, RBrace, ts[pos], []) == Ok(body, q)
    ensures FunctionBody(ts, pos, token, idents) == Ok(FunctionLiteral(token, DefinitionIdentifier(idents), body), q)
  {
  }

  // ---------------------------------------------------------------------------------------
  // Match expressions

  /** `_ -> e`: a default clause whose body returns `e`. */
  lemma DefaultClauseAt(ts: seq<Token>, pos: nat, e: Expression, q: nat)
    requires pos + 2 < |ts| && ts[pos].kind == Underscore && ts[pos + 1].kind == Arrow && ts[pos + 2].kind != LBrace
    requires ParseExpression(ts, pos + 2, LOWEST, None) == Ok(Some(e), q)
    ensures MatchClause(ts, pos) == Ok(DefaultClause(Shorthand(ts[pos + 1], e)), q)
  {
    LiteralOperand(ts, pos, LOWEST);
    LoopStops(ts, pos, LOWEST, Literal(ts[pos]));
    var r := ParseExpression(ts, pos + 2, LOWEST, None);
    assert r.Ok? && r.value.Some? && r.value.value == e && r.pos == q;
    assert ClauseBody(ts, pos + 1) == Ok(Shorthand(ts[pos + 1], e), q);
  }

  /** In the predicate loop, `, e` appends `e`. */
  lemma PredicateStep(ts: seq<Token>, pos: nat, acc: seq<Expression>, e: Expression, q: nat)
    requires pos + 2 < |ts| && ts[pos + 1].kind == Comma
    requires ParseExpression(ts, pos + 2, LOWEST, None) == Ok(Some(e), q)
    ensures MorePredicates(ts, pos, acc) == MorePredicates(ts, q, acc + [e])
  {
  }

  /** The predicate loop ends where the peek token is not `,`. */
  lemma PredicatesEnd(ts: seq<Token>, pos: nat, acc: seq<Expression>)
    requires !(pos + 1 < |ts| && ts[pos + 1].kind == Comma)
    ensures MorePredicates(ts, pos, acc) == Ok(acc, pos)
  {
  }

  /** What the predicate loop reads, for every token sequence: it keeps the predicates it
      started with and, when it succeeds, stops where the peek token is not `,`. */
  lemma {:induction false} PredicatesLayout(ts: seq<Token>, pos: nat, acc: seq<Expression>)
    ensures var r := MorePredicates(ts, pos, acc);
      r.Ok? ==> && |acc| <= |r.value| && r.value[..|acc|] == acc
                && !(r.pos + 1 < |ts| && ts[r.pos + 1].kind == Comma)
                && (|r.value| > |acc| ==> r.pos > pos)
    decreases Remaining(ts, pos)
  {
    if pos + 2 < |ts| && ts[pos + 1].kind == Comma {
      var f := ParseExpression(ts, pos + 2, LOWEST, None);
      if f.Ok? && f.value.Some? {
        var e := f.value.value;
        PredicateStep(ts, pos, acc, e, f.pos);
        PredicatesLayout(ts, f.pos, acc + [e]);
        var r := MorePredicates(ts, pos, acc);
        if r.Ok? {
          assert r.value[..|acc|] == r.value[..|acc + [e]|][..|acc|];
        }
      }
    }
  }

  /** What a clause holds, for every token sequence: it starts with a predicate expression,
      and it is the default exactly when that predicate is `_`. A default clause's body
      follows the `->` right after the `_`; a pair's predicates are this first one and
      those the predicate loop reads after it, and its body follows the `->` after them. */
  lemma ClauseShape(ts: seq<Token>, pos: nat)
    ensures var r := MatchClause(ts, pos);
      var f := ParseExpression(ts, pos, LOWEST, None);
      r.Ok? ==>
        && f.Ok? && f.value.Some?
        && (r.value.DefaultClause? <==> f.value.value.UnderscoreLiteral?)
        && (r.value.DefaultClause? ==>
              f.pos + 1 < |ts| && ts[f.pos + 1].kind == Arrow && ClauseBody(ts, f.pos + 1) == Ok(r.value.body, r.pos))
        && (r.value.PairClause? ==>
              var m := MorePredicates(ts, f.pos, [f.value.value]);
              && m.Ok? && r.value.pair.predicates == m.value
              && m.pos + 1 < |ts| && ts[m.pos + 1].kind == Arrow
              && ClauseBody(ts, m.pos + 1) == Ok(r.value.pair.statement, r.pos))
  {
    var r := MatchClause(ts, pos);
    var f := ParseExpression(ts, pos, LOWEST, None);
    if r.Ok? {
      assert f.Ok? && f.value.Some?;
      var first := f.value.value;
      if first.UnderscoreLiteral? {
        var a := ExpectPeek(ts, f.pos, Arrow);
        assert a.Some? && ClauseBody(ts, a.value).Ok?;
        assert r == Ok(DefaultClause(ClauseBody(ts, a.value).value), ClauseBody(ts, a.value).pos);
      } else {
        var m := MorePredicates(ts, f.pos, [first]);
        assert m.Ok?;
        var a := ExpectPeek(ts, m.pos, Arrow);
        assert a.Some? && ClauseBody(ts, a.value).Ok?;
        assert r == Ok(PairClause(MatchPair(m.value, ClauseBody(ts, a.value).value)), ClauseBody(ts, a.value).pos);
      }
    }
  }

  /** `p, ... -> e`: a pair clause whose body returns `e`, after a first predicate that is
      not `_`. */
  lemma PairClauseAt(ts: seq<Token>, pos: nat, first: Expression, q: nat, predicates: seq<Expression>,
                     q2: nat, e: Expression, b: nat)
    requires ParseExpression(ts, pos, LOWEST, None) == Ok(Some(first), q) && !first.UnderscoreLiteral?
    requires MorePredicates(ts, q, [first]) == Ok(predicates, q2)
    requires q2 + 2 < |ts| && ts[q2 + 1].kind == Arrow && ts[q2 + 2].kind != LBrace
    requires ParseExpression(ts, q2 + 2, LOWEST, None) == Ok(Some(e), b)
    ensures MatchClause(ts, pos) == Ok(PairClause(MatchPair(predicates, Shorthand(ts[q2 + 1], e))), b)
  {
    var body := Shorthand(ts[q2 + 1], e);
    assert ExpectPeek(ts, q2, Arrow) == Some(q2 + 1);
    ShorthandClauseBody(ts, q2 + 1, e, b);
    PairClauseUnfold(ts, pos, first, q, predicates, q2, body, b);
  }

  /** The pair branch of a clause, once its pieces are known. */
  lemma PairClauseUnfold(ts: seq<Token>, pos: nat, first: Expression, q: nat, predicates: seq<Expression>,
                         q2: nat, body: Statement, b: nat)
    requires ParseExpression(ts, pos, LOWEST, None) == Ok(Some(first), q) && !first.UnderscoreLiteral?
    requires MorePredicates(ts, q, [first]) == Ok(predicates, q2)
    requires ExpectPeek(ts, q2, Arrow) == Some(q2 + 1)
    requires q2 + 1 < |ts| && ClauseBody(ts, q2 + 1) == Ok(body, b)
    ensures MatchClause(ts, pos) == Ok(PairClause(MatchPair(predicates, body)), b)
  {
  }

  /** A clause body that is not a `{` block: a block that returns the expression after
      the `->`, carrying the `->`. */
  lemma ShorthandClauseBody(ts: seq<Token>, pos: nat, e: Expression, q: nat)
    requires pos + 1 < |ts| && ts[pos + 1].kind != LBrace
    requires ParseExpression(ts, pos + 1, LOWEST, None) == Ok(Some(e), q)
    ensures ClauseBody(ts, pos) == Ok(Shorthand(ts[pos], e), q)
  {
  }

  /** In the clause loop, a default clause replaces the default, whatever it was. */
  lemma ClausesDefault(ts: seq<Token>, pos: nat, token: Token, default: Option<Statement>, pairs: seq<MatchPair>,
                       body: Statement, b: nat)
    requires pos + 1 < |ts| && ts[pos + 1].kind != RBrace
    requires MatchClause(ts, pos) == Ok(DefaultClause(body), b)
    ensures MatchClauses(ts, pos, token, default, pairs) == MatchClauses(ts, SkipComma(ts, b), token, Some(body), pairs)
  {
  }

  /** In the clause loop, any other clause is appended to the pairs. */
  lemma ClausesPair(ts: seq<Token>, pos: nat, token: Token, default: Option<Statement>, pairs: seq<MatchPair>,
                    pair: MatchPair, b: nat)
    requires pos + 1 < |ts| && ts[pos + 1].kind != RBrace
    requires MatchClause(ts, pos) == Ok(PairClause(pair), b)
    ensures MatchClauses(ts, pos, token, default, pairs) == MatchClauses(ts, SkipComma(ts, b), token, default, pairs + [pair])
  {
  }

  /** The clause loop ends, with the cursor before the `}`, when the peek token is `}`. */
  lemma ClausesEnd(ts: seq<Token>, pos: nat, token: Token, default: Option<Statement>, pairs: seq<MatchPair>)
    requires pos + 1 < |ts| && ts[pos + 1].kind == RBrace
    ensures MatchClauses(ts, pos, token, default, pairs) == Ok(MatchExpression(token, default, pairs), pos)
  {
  }

  /** The clauses between `{` and `}`, in source order, read by the same loop as
      `MatchClauses` but kept as they are. */
  function ClauseList(ts: seq<Token>, pos: nat): Res<seq<Clause>>
    decreases Remaining(ts, pos)
  {
    if pos + 1 >= |ts| then Fail
    else if ts[pos + 1].kind == RBrace then Ok([], pos)
    else
      match MatchClause(ts, pos)
      case Fail => Fail
      case Ok(c, b) =>
        match ClauseList(ts, SkipComma(ts, b))
        case Fail => Fail
        case Ok(cs, q) => Ok([c] + cs, q)
  }

  /** The body of the last default clause of `cs`, or `d` when there is none. */
  function DefaultOf(cs: seq<Clause>, d: Option<Statement>): Option<Statement>
    decreases |cs|
  {
    if |cs| == 0 then d
    else if cs[|cs| - 1].DefaultClause? then Some(cs[|cs| - 1].body)
    else DefaultOf(cs[..|cs| - 1], d)
  }

  /** The pairs of the non-default clauses of `cs`, in order. */
  function PairsOf(cs: seq<Clause>): seq<MatchPair>
    decreases |cs|
  {
    if |cs| == 0 then []
    else PairsOf(cs[..|cs| - 1]) + (if cs[|cs| - 1].PairClause? then [cs[|cs| - 1].pair] else [])
  }

  /** A clause in front: a default one is overridden by any later default. */
  lemma {:induction false} DefaultOfFront(c: Clause, cs: seq<Clause>, d: Option<Statement>)
    ensures DefaultOf([c] + cs, d) == DefaultOf(cs, if c.DefaultClause? then Some(c.body) else d)
    decreases |cs|
  {
    if |cs| > 0 {
      assert ([c] + cs)[..|cs|] == [c] + cs[..|cs| - 1];
      DefaultOfFront(c, cs[..|cs| - 1], d);
    }
  }

  /** A clause in front: its pair, if it has one, comes first. */
  lemma {:induction false} PairsOfFront(c: Clause, cs: seq<Clause>)
    ensures PairsOf([c] + cs) == (if c.PairClause? then [c.pair] else []) + PairsOf(cs)
    decreases |cs|
  {
    if |cs| > 0 {
      assert ([c] + cs)[..|cs|] == [c] + cs[..|cs| - 1];
      PairsOfFront(c, cs[..|cs| - 1]);
    } else {
      assert ([c] + cs)[..0] == [];
    }
  }

  /** The clause loop's result when the clauses read from `pos` are `l`. */
  function Collected(l: Res<seq<Clause>>, token: Token, default: Option<Statement>, pairs: seq<MatchPair>)
    : Res<Expression>
  {
    match l
    case Fail => Fail
    case Ok(cs, q) => Ok(MatchExpression(token, DefaultOf(cs, default), pairs + PairsOf(cs)), q)
  }

  /** `c` in front of the clauses `l`, when reading them succeeded. */
  function Prepend(c: Clause, l: Res<seq<Clause>>): Res<seq<Clause>> {
    match l
    case Fail => Fail
    case Ok(cs, q) => Ok([c] + cs, q)
  }

  /** Reading the clause list: a clause other than the last is put in front of the rest. */
  lemma ClauseListStep(ts: seq<Token>, pos: nat, c: Clause, b: nat)
    requires pos + 1 < |ts| && ts[pos + 1].kind != RBrace
    requires MatchClause(ts, pos) == Ok(c, b)
    ensures ClauseList(ts, pos) == Prepend(c, ClauseList(ts, SkipComma(ts, b)))
  {
  }

  /** Collecting `c` first is starting from the default and pairs it leaves. */
  lemma CollectedFront(c: Clause, l: Res<seq<Clause>>, token: Token, default: Option<Statement>,
                       pairs: seq<MatchPair>)
    ensures Collected(Prepend(c, l), token, default, pairs) ==
            Collected(l, token, if c.DefaultClause? then Some(c.body) else default,
                      if c.PairClause? then pairs + [c.pair] else pairs)
  {
    if l.Ok? {
      DefaultOfFront(c, l.value, default);
      PairsOfFront(c, l.value);
      assert (if c.PairClause? then pairs + [c.pair] else pairs) + PairsOf(l.value) == pairs + PairsOf([c] + l.value);
    }
  }

  /** The whole clause loop, for every token sequence: it fails exactly when reading the
      clauses fails, and otherwise its default is the body of the last `_` clause (or the
      one it started with) and its pairs are the other clauses' pairs, in source order,
      after the ones it started with. */
  lemma {:induction false} MatchClausesCollect(ts: seq<Token>, pos: nat, token: Token,
                                               default: Option<Statement>, pairs: seq<MatchPair>)
    ensures MatchClauses(ts, pos, token, default, pairs) == Collected(ClauseList(ts, pos), token, default, pairs)
    decreases Remaining(ts, pos)
  {
    if pos + 1 < |ts| && ts[pos + 1].kind != RBrace {
      var r := MatchClause(ts, pos);
      if r.Ok? {
        var c := r.value;
        var d := if c.DefaultClause? then Some(c.body) else default;
        var ps := if c.PairClause? then pairs + [c.pair] else pairs;
        if c.DefaultClause? {
          ClausesDefault(ts, pos, token, default, pairs, c.body, r.pos);
        } else {
          ClausesPair(ts, pos, token, default, pairs, c.pair, r.pos);
        }
        MatchClausesCollect(ts, SkipComma(ts, r.pos), token, d, ps);
        ClauseListStep(ts, pos, c, r.pos);
        CollectedFront(c, ClauseList(ts, SkipComma(ts, r.pos)), token, default, pairs);
      }
    } else if pos + 1 < |ts| {
      ClausesEnd(ts, pos, token, default, pairs);
      assert pairs + PairsOf([]) == pairs;
    }
  }
}
