/** The `Parser` of src/parser.rs: a token vector and a cursor that the parsing methods move.
    Every method is proved to leave the cursor, and to return the value, that the function
    of the same name in `Grammar` computes from the cursor it started at. A method that
    reaches one of the source's `error(...)` calls (which exit the process), a failed
    `unwrap()` or a `panic!()` returns `Aborted`, and the function then yields `Fail`. */
module Parsing {
  import opened Options
  import opened Tokens
  import opened Ast
  import opened Grammar

  /** What a parsing method returns: its value, or `Aborted` when the source stops. */
  datatype Outcome<+T> = Done(value: T) | Aborted

  /** A method's outcome and final cursor agree with the function result `s`. */
  predicate Follows<T(==)>(r: Outcome<T>, pos: nat, s: Res<T>) {
    match s
    case Fail => r.Aborted?
    case Ok(v, p) => r == Done(v) && pos == p
  }

  class Parser {
    const tokens: seq<Token>
    var current: nat

    /** `Parser::new`: the cursor starts on the first token. */
    constructor (tokens: seq<Token>)
      ensures this.tokens == tokens && current == 0
    {
      this.tokens := tokens;
      current := 0;
    }

    /** `consume_token`. */
    method ConsumeToken()
      modifies this
      ensures current == old(current) + 1
    {
      current := current + 1;
    }

    /** `get_current_token`. */
    function CurrentToken(): Option<Token>
      reads this
    {
      Cur(tokens, current)
    }

    /** `get_peek_token`. */
    function PeekToken(): Option<Token>
      reads this
    {
      Peek(tokens, current)
    }

    /** `expect_peek`: on success the cursor is on the peek token; `false` stands for the
        error exit, where the caller stops. */
    method ExpectPeek(kind: TokenType) returns (ok: bool)
      modifies this
      ensures ok <==> Grammar.ExpectPeek(tokens, old(current), kind).Some?
      ensures current == if ok then old(current) + 1 else old(current)
    {
      var peek := PeekToken();
      if peek.Some? && peek.value.kind == kind {
        ConsumeToken();
        return true;
      }
      return false;
    }

    /** `parse_program`. The guard is evaluated on copies taken before the loop. */
    method ParseProgram() returns (r: Outcome<Program>)
      modifies this
      ensures Follows(r, current, ParseProgramFrom(tokens, old(current)))
    {
      var statements: seq<Statement> := [];
      var start := current;
      var length := |tokens|;
      while start != length
        invariant ProgramStatements(tokens, start, current, statements) == ProgramStatements(tokens, start, start, [])
        decreases Remaining(tokens, current)
      {
        var parsed := ParseStatement();
        match parsed
        case Aborted => return Aborted;
        case Done(None) => break;
        case Done(Some(s)) =>
          statements := statements + [s];
          ConsumeToken();
      }
      return Done(Program(statements));
    }

    /** `parse_ident_literal`. */
    method ParseIdentLiteral(already: Option<seq<Token>>) returns (r: Outcome<Expression>)
      requires current < |tokens|
      modifies this
      ensures Follows(r, current, Grammar.ParseIdentLiteral(tokens, old(current), already))
    {
      if already.Some? {
        return Done(NormalIdentifier(already.value));
      }
      var idents := [tokens[current]];
      while PeekToken().Some?
        invariant old(current) <= current < |tokens|
        invariant IdentPath(tokens, current, idents) == IdentPath(tokens, old(current), [tokens[old(current)]])
        decreases Remaining(tokens, current)
      {
        if PeekToken().value.kind != Period {
          break;
        }
        ConsumeToken();
        var next := PeekToken();
        if next.Some? && next.value.kind.Ident? {
          ConsumeToken();
          idents := idents + [tokens[current]];
        } else {
          return Aborted;
        }
      }
      return Done(NormalIdentifier(idents));
    }

    /** `parse_ident_literals`. The `.` and `,` arms of the source differ only in the kind
        they record. */
    method ParseIdentLiterals() returns (r: Outcome<(seq<Token>, IdentTypes)>)
      modifies this
      ensures Follows(r, current, Grammar.ParseIdentLiterals(tokens, old(current)))
    {
      var kind := Destructuring;
      var idents: seq<Token> := [];
      var t := CurrentToken();
      if t.Some? && t.value.kind.Ident? {
        idents := [t.value];
      }
      while PeekToken().Some?
        invariant IdentChain(tokens, current, idents, kind) == Grammar.ParseIdentLiterals(tokens, old(current))
        decreases Remaining(tokens, current)
      {
        var peek := PeekToken().value;
        if peek.kind == Period || peek.kind == Comma {
          kind := if peek.kind == Period then Normal else Destructuring;
          ConsumeToken();
          var next := PeekToken();
          if next.Some? && next.value.kind.Ident? {
            ConsumeToken();
            idents := idents + [tokens[current]];
          } else {
            return Aborted;
          }
        } else {
          ConsumeToken();
          return Done((idents, kind));
        }
      }
      return Done((idents, kind));
    }

    /** `parse_function_expression`. */
    method ParseFunctionExpression() returns (r: Outcome<Expression>)
      requires current < |tokens| && tokens[current].kind == Bar
      modifies this
      ensures Follows(r, current, Grammar.ParseFunctionExpression(tokens, old(current)))
      decreases Remaining(tokens, current), 1
    {
      var token := tokens[current];
      ConsumeToken();
      var parameters := ParseIdentLiterals();
      if parameters.Aborted? {
        return Aborted;
      }
      var idents := parameters.value.0;
      ghost var p1 := current;
      assert Grammar.ParseIdentLiterals(tokens, old(current) + 1) == Ok(parameters.value, p1);
      var t := CurrentToken();
      if t.None? || (|idents| != 0 && t.value.kind != Bar) {
        return Aborted;
      }
      if t.value.kind == Bar {
        ConsumeToken();
      }
      var arrow := CurrentToken();
      if arrow.None? || arrow.value.kind != Arrow {
        return Aborted;
      }
      ConsumeToken();
      if CurrentToken().None? {
        return Aborted;
      }
      r := ParseFunctionBody(token, idents);
    }

    /** The body of a function literal, with the cursor on the token after `->`. */
    method ParseFunctionBody(token: Token, idents: seq<Token>) returns (r: Outcome<Expression>)
      requires current < |tokens| && token.kind == Bar && AllIdents(idents)
      modifies this
      ensures Follows(r, current, FunctionBody(tokens, old(current), token, idents))
      decreases Remaining(tokens, current), 9
    {
      var tok := tokens[current];
      if tok.kind == LBrace {
        var block := ParseBlockStatement(RBrace);
        if block.Aborted? {
          return Aborted;
        }
        return Done(FunctionLiteral(token, DefinitionIdentifier(idents), block.value));
      }
      var e := ParseExpression(LOWEST, None);
      if e.Aborted? || e.value.None? {
        return Aborted;
      }
      ConsumeToken();
      return Done(FunctionLiteral(token, DefinitionIdentifier(idents), Shorthand(tok, e.value.value)));
    }

    /** `parse_array_literal`. */
    method ParseArrayLiteral() returns (r: Outcome<Expression>)
      requires current < |tokens| && tokens[current].kind == LBracket
      modifies this
      ensures Follows(r, current, Grammar.ParseArrayLiteral(tokens, old(current)))
      decreases Remaining(tokens, current), 6
    {
      var token := tokens[current];
      var elements := ParseExpressionList(RBracket);
      if elements.Aborted? {
        return Aborted;
      }
      return Done(ArrayLiteral(token, elements.value));
    }

    /** `parse_statement`. */
    method ParseStatement() returns (r: Outcome<Option<Statement>>)
      modifies this
      ensures Follows(r, current, Grammar.ParseStatement(tokens, old(current)))
      decreases Remaining(tokens, current), 11
    {
      var t := CurrentToken();
      if t.None? {
        return Done(None);
      }
      match t.value.kind
      case Import => r := ParseImportStatement();
      case Ident(_) => r := ParseIdentifierStatement();
      case Return => r := ParseReturnStatement();
      case _ => r := ParseExpressionStatement(None);
    }

    /** `parse_import_statement`. */
    method ParseImportStatement() returns (r: Outcome<Option<Statement>>)
      requires current < |tokens| && tokens[current].kind == Import
      modifies this
      ensures Follows(r, current, Grammar.ParseImportStatement(tokens, old(current)))
    {
      var token := tokens[current];
      ConsumeToken();
      var name := CurrentToken();
      if name.None? {
        return Aborted;
      }
      return Done(Some(ImportStatement(token, name.value)));
    }

    /** `parse_expression_statement`. */
    method ParseExpressionStatement(idents: Option<seq<Token>>) returns (r: Outcome<Option<Statement>>)
      modifies this
      ensures Follows(r, current, Grammar.ParseExpressionStatement(tokens, old(current), idents))
      decreases Remaining(tokens, current), 9
    {
      var t := CurrentToken();
      if t.None? {
        return Aborted;
      }
      var e := ParseExpression(LOWEST, idents);
      match e
      case Aborted => return Aborted;
      case Done(None) => return Done(None);
      case Done(Some(x)) => return Done(Some(ExpressionStatement(t.value, x)));
    }

    /** `parse_identifier_statement`. */
    method ParseIdentifierStatement() returns (r: Outcome<Option<Statement>>)
      requires current < |tokens| && tokens[current].kind.Ident?
      modifies this
      ensures Follows(r, current, Grammar.ParseIdentifierStatement(tokens, old(current)))
      decreases Remaining(tokens, current), 10
    {
      var chain := ParseIdentLiterals();
      if chain.Aborted? {
        return Aborted;
      }
      var idents := chain.value.0;
      ghost var p0 := current;
      assert Grammar.ParseIdentLiterals(tokens, old(current)) == Ok((idents, chain.value.1), p0);
      var t := CurrentToken();
      if t.Some? && !t.value.kind.Ident? {
        // The scan moved past the first identifier, so this cannot go below zero.
        current := current - 1;
      }
      ghost var next := current + 1;
      assert next == if p0 < |tokens| && !tokens[p0].kind.Ident? then p0 else p0 + 1;
      var peek := PeekToken();
      if peek.Some? && (peek.value.kind == ColonEqual || peek.value.kind == Equal) {
        ConsumeToken();
        assert Grammar.ParseIdentifierStatement(tokens, old(current)) == Assignment(tokens, current, idents);
        r := ParseAssignment(idents);
        return;
      }
      assert Grammar.ParseIdentifierStatement(tokens, old(current)) ==
        Grammar.ParseExpressionStatement(tokens, current, Some(idents));
      r := ParseExpressionStatement(Some(idents));
    }

    /** The assignment arm of `parse_identifier_statement`, with the cursor on `:=` or `=`. */
    method ParseAssignment(idents: seq<Token>) returns (r: Outcome<Option<Statement>>)
      requires current < |tokens| && (tokens[current].kind == ColonEqual || tokens[current].kind == Equal)
      modifies this
      ensures Follows(r, current, Assignment(tokens, old(current), idents))
      decreases Remaining(tokens, current), 1
    {
      var kind := if tokens[current].kind == ColonEqual then Destructuring else Normal;
      var token := tokens[current];
      ConsumeToken();
      var e := ParseExpression(LOWEST, None);
      if e.Aborted? || e.value.None? {
        return Aborted;
      }
      match kind
      case Destructuring => return Done(Some(AssignStatement(token, e.value.value, DefinitionIdentifier(idents))));
      case Normal => return Done(Some(UpdateStatement(token, e.value.value, NormalIdentifier(idents))));
    }

    /** `parse_return_statement`. */
    method ParseReturnStatement() returns (r: Outcome<Option<Statement>>)
      requires current < |tokens|
      modifies this
      ensures Follows(r, current, Grammar.ParseReturnStatement(tokens, old(current)))
      decreases Remaining(tokens, current), 1
    {
      var token := tokens[current];
      ConsumeToken();
      var value := ParseExpression(LOWEST, None);
      if value.Aborted? || value.value.None? {
        return Aborted;
      }
      return Done(Some(ReturnStatement(token, value.value.value)));
    }

    /** `parse_block_statement`. The loop's `unwrap()` of the current token fails before
        its second test is reached, so running out of tokens aborts. */
    method ParseBlockStatement(end: TokenType) returns (r: Outcome<Statement>)
      modifies this
      ensures Follows(r, current, Grammar.ParseBlockStatement(tokens, old(current), end))
      decreases Remaining(tokens, current), 1
    {
      var opener := CurrentToken();
      if opener.None? {
        return Aborted;
      }
      var token := opener.value;
      ConsumeToken();
      var statements: seq<Statement> := [];
      while true
        invariant old(current) < current
        invariant BlockStatements(tokens, current, end, token, statements) == Grammar.ParseBlockStatement(tokens, old(current), end)
        decreases Remaining(tokens, current)
      {
        var t := CurrentToken();
        if t.None? {
          return Aborted;
        }
        if t.value.kind == end {
          break;
        }
        var s := ParseStatement();
        match s
        case Aborted => return Aborted;
        case Done(None) => ConsumeToken();
        case Done(Some(st)) =>
          statements := statements + [st];
          ConsumeToken();
      }
      return Done(BlockStatement(token, statements));
    }

    /** `parse_expression`. */
    method ParseExpression(precedence: Precedence, idents: Option<seq<Token>>) returns (r: Outcome<Option<Expression>>)
      modifies this
      ensures Follows(r, current, Grammar.ParseExpression(tokens, old(current), precedence, idents))
      decreases Remaining(tokens, current), 8
    {
      var t := CurrentToken();
      if t.None? {
        return Aborted;
      }
      if !HasPrefix(t.value.kind) {
        return Done(None);
      }
      var prefix := Prefix(idents);
      if prefix.Aborted? {
        return Aborted;
      }
      var e := prefix.value;
      ghost var loop := InfixLoop(tokens, current, precedence, e);
      while Below(precedence, PeekPrecedence(tokens, current))
        invariant old(current) <= current
        invariant InfixLoop(tokens, current, precedence, e) == loop
        decreases Remaining(tokens, current)
      {
        var peek := PeekToken().value;
        if !HasInfix(peek.kind) {
          return Done(Some(e));
        }
        ConsumeToken();
        var next := Infix(e);
        if next.Aborted? {
          return Aborted;
        }
        e := next.value;
      }
      return Done(Some(e));
    }

    /** `prefix_fn` with `execute` true; with `execute` false it is `HasPrefix`. */
    method Prefix(idents: Option<seq<Token>>) returns (r: Outcome<Expression>)
      requires current < |tokens| && HasPrefix(tokens[current].kind)
      modifies this
      ensures Follows(r, current, ParsePrefix(tokens, old(current), idents))
      decreases Remaining(tokens, current), 7
    {
      var t := tokens[current];
      match t.kind
      case Integer(_) => return Done(IntegerLiteral(t));
      case Underscore => return Done(UnderscoreLiteral(t));
      case Float(_) => return Done(FloatLiteral(t));
      case String(_) => return Done(StringLiteral(t));
      case LParen => r := ParseGroupedExpression();
      case LBracket => r := ParseArrayLiteral();
      case Bar => r := ParseFunctionExpression();
      case Ident(_) => r := ParseIdentLiteral(idents);
    }

    /** `infix_fn` with `execute` true; with `execute` false it is `HasInfix`. */
    method Infix(left: Expression) returns (r: Outcome<Expression>)
      requires current < |tokens| && HasInfix(tokens[current].kind)
      modifies this
      ensures Follows(r, current, ParseInfix(tokens, old(current), left))
      decreases Remaining(tokens, current), 7
    {
      var kind := tokens[current].kind;
      if kind == LParen {
        r := ParseCallExpression(left);
      } else if kind == Match {
        r := ParseMatchExpression(left);
      } else {
        r := ParseInfixExpression(left);
      }
    }

    /** `parse_infix_expression`. */
    method ParseInfixExpression(left: Expression) returns (r: Outcome<Expression>)
      requires current < |tokens|
      modifies this
      ensures Follows(r, current, Grammar.ParseInfixExpression(tokens, old(current), left))
      decreases Remaining(tokens, current), 1
    {
      var token := tokens[current];
      var precedence := FromTok(token.kind);
      if precedence.None? {
        return Aborted;
      }
      ConsumeToken();
      var right := ParseExpression(precedence.value, None);
      if right.Aborted? || right.value.None? {
        return Aborted;
      }
      return Done(InfixExpression(token, left, right.value.value));
    }

    /** `parse_grouped_expression`; it is only reached with the cursor on `(`. */
    method ParseGroupedExpression() returns (r: Outcome<Expression>)
      requires current < |tokens| && tokens[current].kind == LParen
      modifies this
      ensures Follows(r, current, Grammar.ParseGroupedExpression(tokens, old(current)))
      decreases Remaining(tokens, current), 1
    {
      ConsumeToken();
      var e := ParseExpression(LOWEST, None);
      if e.Aborted? || e.value.None? {
        return Aborted;
      }
      if PeekToken().Some? {
        var ok := ExpectPeek(RParen);
        if !ok {
          return Aborted;
        }
      } else {
        var t := CurrentToken();
        if t.Some? && t.value.kind != RParen {
          return Aborted;
        }
      }
      return Done(e.value.value);
    }

    /** `parse_call_expression`; it is only reached with the cursor on `(`. */
    method ParseCallExpression(callee: Expression) returns (r: Outcome<Expression>)
      requires current < |tokens| && tokens[current].kind == LParen
      modifies this
      ensures Follows(r, current, Grammar.ParseCallExpression(tokens, old(current), callee))
      decreases Remaining(tokens, current), 6
    {
      var token := tokens[current];
      var arguments := ParseExpressionList(RParen);
      if arguments.Aborted? {
        return Aborted;
      }
      return Done(CallExpression(token, arguments.value, callee));
    }

    /** `parse_expression_list`. */
    method ParseExpressionList(end: TokenType) returns (r: Outcome<seq<Expression>>)
      modifies this
      ensures Follows(r, current, Grammar.ParseExpressionList(tokens, old(current), end))
      decreases Remaining(tokens, current), 5
    {
      var closed := PeekIs(tokens, current, end);
      if closed.None? {
        return Aborted;
      }
      if closed.value {
        ConsumeToken();
        return Done([]);
      }
      ConsumeToken();
      var first := ParseExpression(LOWEST, None);
      if first.Aborted? || first.value.None? {
        return Aborted;
      }
      ConsumeToken();
      r := ParseListRest(end, [first.value.value]);
    }

    /** The loop of `parse_expression_list`, after the first element. */
    method ParseListRest(end: TokenType, first: seq<Expression>) returns (r: Outcome<seq<Expression>>)
      modifies this
      ensures Follows(r, current, ListRest(tokens, old(current), end, first))
      decreases Remaining(tokens, current), 9
    {
      var expressions := first;
      while CurrentToken().Some?
        invariant old(current) <= current
        invariant ListRest(tokens, current, end, expressions) == ListRest(tokens, old(current), end, first)
        decreases Remaining(tokens, current)
      {
        if tokens[current].kind == end {
          break;
        }
        var e := ParseExpression(LOWEST, None);
        match e {
          case Aborted => return Aborted;
          case Done(None) =>
          case Done(Some(x)) => expressions := expressions + [x];
        }
        ConsumeToken();
      }
      return Done(expressions);
    }

    /** `parse_match_expression`. */
    method ParseMatchExpression(scrutinee: Expression) returns (r: Outcome<Expression>)
      requires current < |tokens| && tokens[current].kind == Match
      modifies this
      ensures Follows(r, current, Grammar.ParseMatchExpression(tokens, old(current), scrutinee))
      decreases Remaining(tokens, current), 1
    {
      var token := tokens[current];
      var braced := ExpectPeek(LBrace);
      if !braced {
        return Aborted;
      }
      ConsumeToken();
      r := ParseMatchClauses(token, None, []);
    }

    /** The clause loop of `parse_match_expression`. */
    method ParseMatchClauses(token: Token, default: Option<Statement>, pairs: seq<MatchPair>) returns (r: Outcome<Expression>)
      modifies this
      ensures Follows(r, current, MatchClauses(tokens, old(current), token, default, pairs))
      decreases Remaining(tokens, current), 10
    {
      var default := default;
      var pairs := pairs;
      ghost var spec := MatchClauses(tokens, current, token, default, pairs);
      while true
        invariant old(current) <= current
        invariant MatchClauses(tokens, current, token, default, pairs) == spec
        decreases Remaining(tokens, current)
      {
        var peek := PeekToken();
        if peek.None? {
          return Aborted;
        }
        if peek.value.kind == RBrace {
          break;
        }
        var clause := ParseMatchClause();
        match clause {
          case Aborted => return Aborted;
          case Done(DefaultClause(body)) => default := Some(body);
          case Done(PairClause(pair)) => pairs := pairs + [pair];
        }
        var next := PeekToken();
        if next.Some? && next.value.kind == Comma {
          ConsumeToken();
          ConsumeToken();
        }
      }
      return Done(MatchExpression(token, default, pairs));
    }

    /** One iteration of the clause loop of `parse_match_expression`, up to the end of the
        clause body. */
    method ParseMatchClause() returns (r: Outcome<Clause>)
      modifies this
      ensures Follows(r, current, MatchClause(tokens, old(current)))
      decreases Remaining(tokens, current), 9
    {
      var first := ParseExpression(LOWEST, None);
      if first.Aborted? || first.value.None? {
        return Aborted;
      }
      var expr := first.value.value;
      if expr.UnderscoreLiteral? {
        var arrow := ExpectPeek(Arrow);
        if !arrow {
          return Aborted;
        }
        var body := ParseClauseBody();
        if body.Aborted? {
          return Aborted;
        }
        return Done(DefaultClause(body.value));
      }
      var predicates := ParseMorePredicates([expr]);
      if predicates.Aborted? {
        return Aborted;
      }
      var arrow := ExpectPeek(Arrow);
      if !arrow {
        return Aborted;
      }
      var body := ParseClauseBody();
      if body.Aborted? {
        return Aborted;
      }
      return Done(PairClause(MatchPair(predicates.value, body.value)));
    }

    /** The predicate loop inside `parse_match_expression`. */
    method ParseMorePredicates(first: seq<Expression>) returns (r: Outcome<seq<Expression>>)
      modifies this
      ensures Follows(r, current, MorePredicates(tokens, old(current), first))
      decreases Remaining(tokens, current), 1
    {
      var predicates := first;
      while PeekToken().Some? && PeekToken().value.kind == Comma
        invariant old(current) <= current
        invariant MorePredicates(tokens, current, predicates) == MorePredicates(tokens, old(current), first)
        decreases Remaining(tokens, current)
      {
        ConsumeToken();
        if PeekToken().None? {
          return Aborted;
        }
        ConsumeToken();
        var e := ParseExpression(LOWEST, None);
        if e.Aborted? || e.value.None? {
          return Aborted;
        }
        predicates := predicates + [e.value.value];
      }
      return Done(predicates);
    }

    /** The clause body inside `parse_match_expression`, with the cursor on the `->`. */
    method ParseClauseBody() returns (r: Outcome<Statement>)
      requires current < |tokens|
      modifies this
      ensures Follows(r, current, ClauseBody(tokens, old(current)))
      decreases Remaining(tokens, current), 1
    {
      var peek := PeekToken();
      if peek.None? {
        return Aborted;
      }
      if peek.value.kind == LBrace {
        ConsumeToken();
        r := ParseBlockStatement(RBrace);
        return;
      }
      var token := tokens[current];
      ConsumeToken();
      var e := ParseExpression(LOWEST, None);
      if e.Aborted? || e.value.None? {
        return Aborted;
      }
      return Done(Shorthand(token, e.value.value));
    }
  }
}
