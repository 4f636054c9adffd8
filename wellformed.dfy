/** The shape of every tree the parser builds, and the proof that each parsing function of
    module Grammar builds only such trees. The lemmas follow the functions call for call and
    share their termination measure. */
module WellFormed {
  import opened Options
  import opened Tokens
  import opened Ast
  import opened Grammar

  /** Each node carries the token kind its rule starts at, identifier paths are nonempty
      identifier tokens, function parameters are a definition list, and every body is a
      block. */
  predicate WfExpr(e: Expression) {
    match e
    case NormalIdentifier(ids) => |ids| > 0 && AllIdents(ids)
    case DefinitionIdentifier(ids) => AllIdents(ids)
    case IntegerLiteral(t) => t.kind.Integer?
    case FloatLiteral(t) => t.kind.Float?
    case StringLiteral(t) => t.kind.String?
    case UnderscoreLiteral(t) => t.kind == Underscore
    case ArrayLiteral(t, elements) => t.kind == LBracket && AllWfExprs(elements)
    case FunctionLiteral(t, parameters, body) =>
      t.kind == Bar && parameters.DefinitionIdentifier? && WfExpr(parameters) && body.BlockStatement? && WfStmt(body)
    case CallExpression(t, arguments, callee) => t.kind == LParen && AllWfExprs(arguments) && WfExpr(callee)
    case InfixExpression(t, left, right) => IsBinaryOperator(t.kind) && WfExpr(left) && WfExpr(right)
    case MatchExpression(t, default, pairs) =>
      t.kind == Match && WfDefault(default) && AllWfPairs(pairs)
  }

  predicate AllWfExprs(es: seq<Expression>) {
    forall i :: 0 <= i < |es| ==> WfExpr(es[i])
  }

  predicate WfDefault(default: Option<Statement>) {
    default.Some? ==> default.value.BlockStatement? && WfStmt(default.value)
  }

  predicate WfPair(pair: MatchPair) {
    |pair.predicates| > 0 && AllWfExprs(pair.predicates) && pair.statement.BlockStatement? && WfStmt(pair.statement)
  }

  predicate AllWfPairs(pairs: seq<MatchPair>) {
    forall i :: 0 <= i < |pairs| ==> WfPair(pairs[i])
  }

  /** Imports start at `import`, definitions at `:=` with a nonempty definition list,
      updates at `=` with a nonempty path. */
  predicate WfStmt(s: Statement) {
    match s
    case ImportStatement(t, _) => t.kind == Import
    case ExpressionStatement(_, e) => WfExpr(e)
    case AssignStatement(t, e, defined) =>
      t.kind == ColonEqual && defined.DefinitionIdentifier? && |defined.idents| > 0 && WfExpr(defined) && WfExpr(e)
    case UpdateStatement(t, e, ident) => t.kind == Equal && ident.NormalIdentifier? && WfExpr(ident) && WfExpr(e)
    case ReturnStatement(_, value) => WfExpr(value)
    case BlockStatement(_, statements) => AllWfStmts(statements)
  }

  predicate AllWfStmts(ss: seq<Statement>) {
    forall i :: 0 <= i < |ss| ==> WfStmt(ss[i])
  }

  /** A shorthand body is a well-formed block exactly when its expression is well formed. */
  lemma ShorthandWf(token: Token, e: Expression)
    ensures Shorthand(token, e).BlockStatement?
    ensures WfStmt(Shorthand(token, e)) <==> WfExpr(e)
  {
    var body := [ReturnStatement(token, e)];
    assert Shorthand(token, e).statements == body;
    assert AllWfStmts(body) <==> WfStmt(body[0]);
  }


  lemma AppendStatementWf(ss: seq<Statement>, s: Statement)
    requires AllWfStmts(ss) && WfStmt(s)
    ensures AllWfStmts(ss + [s])
  {
    assert forall i :: 0 <= i < |ss| ==> (ss + [s])[i] == ss[i];
  }

  lemma AppendExpressionWf(es: seq<Expression>, e: Expression)
    requires AllWfExprs(es) && WfExpr(e)
    ensures AllWfExprs(es + [e])
  {
    assert forall i :: 0 <= i < |es| ==> (es + [e])[i] == es[i];
  }

  lemma AppendPairWf(pairs: seq<MatchPair>, pair: MatchPair)
    requires AllWfPairs(pairs) && WfPair(pair)
    ensures AllWfPairs(pairs + [pair])
  {
    assert forall i :: 0 <= i < |pairs| ==> (pairs + [pair])[i] == pairs[i];
  }

  /** A path read at an identifier, or one scanned before, is a nonempty identifier list. */
  lemma ParseIdentLiteralWf(ts: seq<Token>, pos: nat, already: Option<seq<Token>>)
    requires pos < |ts| && ts[pos].kind.Ident? && IdentsOk(already)
    ensures var r := ParseIdentLiteral(ts, pos, already); r.Ok? ==> WfExpr(r.value)
  {
    if already.None? {
      assert AllIdents([ts[pos]]);
    }
  }

  // ---------------------------------------------------------------------------------------
  // Statements and expressions

  lemma {:induction false} ParseStatementWf(ts: seq<Token>, pos: nat)
    ensures var r := ParseStatement(ts, pos); r.Ok? && r.value.Some? ==> WfStmt(r.value.value)
    decreases Remaining(ts, pos), 11
  {
    if pos < |ts| {
      match ts[pos].kind
      case Import =>
      case Ident(_) => ParseIdentifierStatementWf(ts, pos);
      case Return => ParseReturnStatementWf(ts, pos);
      case _ => ParseExpressionStatementWf(ts, pos, None);
    }
  }

  lemma {:induction false} ParseExpressionStatementWf(ts: seq<Token>, pos: nat, idents: Option<seq<Token>>)
    requires IdentsOk(idents)
    ensures var r := ParseExpressionStatement(ts, pos, idents); r.Ok? && r.value.Some? ==> WfStmt(r.value.value)
    decreases Remaining(ts, pos), 9
  {
    if pos < |ts| {
      ParseExpressionWf(ts, pos, LOWEST, idents);
    }
  }

  lemma {:induction false} ParseIdentifierStatementWf(ts: seq<Token>, pos: nat)
    requires pos < |ts| && ts[pos].kind.Ident?
    ensures var r := ParseIdentifierStatement(ts, pos); r.Ok? ==> WfStmt(r.value.value)
    decreases Remaining(ts, pos), 10
  {
    var chain := ParseIdentLiterals(ts, pos);
    if chain.Ok? {
      var idents, p0 := chain.value.0, chain.pos;
      var next := if p0 < |ts| && !ts[p0].kind.Ident? then p0 else p0 + 1;
      IdentifierStatementSplit(ts, pos, idents, chain.value.1, p0);
      if next < |ts| && (ts[next].kind == ColonEqual || ts[next].kind == Equal) {
        AssignmentWf(ts, next, idents);
      } else {
        ParseExpressionStatementWf(ts, next - 1, Some(idents));
      }
    }
  }

  /** The two arms of an identifier statement once its chain is scanned; the chain is a
      nonempty identifier path. */
  lemma IdentifierStatementSplit(ts: seq<Token>, pos: nat, idents: seq<Token>, kind: IdentTypes, p0: nat)
    requires pos < |ts| && ts[pos].kind.Ident?
    requires ParseIdentLiterals(ts, pos) == Ok((idents, kind), p0)
    ensures IdentsOk(Some(idents))
    ensures var next := if p0 < |ts| && !ts[p0].kind.Ident? then p0 else p0 + 1;
      ParseIdentifierStatement(ts, pos) ==
        if next < |ts| && (ts[next].kind == ColonEqual || ts[next].kind == Equal) then Assignment(ts, next, idents)
        else ParseExpressionStatement(ts, next - 1, Some(idents))
  {
  }

  lemma {:induction false} AssignmentWf(ts: seq<Token>, pos: nat, idents: seq<Token>)
    requires pos < |ts| && (ts[pos].kind == ColonEqual || ts[pos].kind == Equal)
    requires IdentsOk(Some(idents))
    ensures var r := Assignment(ts, pos, idents); r.Ok? ==> WfStmt(r.value.value)
    decreases Remaining(ts, pos), 1
  {
    ParseExpressionWf(ts, pos + 1, LOWEST, None);
  }

  lemma {:induction false} ParseReturnStatementWf(ts: seq<Token>, pos: nat)
    requires pos < |ts|
    ensures var r := ParseReturnStatement(ts, pos); r.Ok? ==> WfStmt(r.value.value)
    decreases Remaining(ts, pos), 1
  {
    ParseExpressionWf(ts, pos + 1, LOWEST, None);
  }

  lemma {:induction false} ParseBlockStatementWf(ts: seq<Token>, pos: nat, end: TokenType)
    ensures var r := ParseBlockStatement(ts, pos, end); r.Ok? ==> WfStmt(r.value)
    decreases Remaining(ts, pos), 1
  {
    if pos < |ts| {
      BlockStatementsWf(ts, pos + 1, end, ts[pos], []);
    }
  }

  lemma {:induction false} BlockStatementsWf(ts: seq<Token>, pos: nat, end: TokenType, token: Token, acc: seq<Statement>)
    requires AllWfStmts(acc)
    ensures var r := BlockStatements(ts, pos, end, token, acc); r.Ok? ==> WfStmt(r.value)
    decreases Remaining(ts, pos), 12
  {
    if pos < |ts| && ts[pos].kind != end {
      ParseStatementWf(ts, pos);
      match ParseStatement(ts, pos)
      case Fail =>
      case Ok(None, q) => BlockStatementsWf(ts, q + 1, end, token, acc);
      case Ok(Some(s), q) =>
        AppendStatementWf(acc, s);
        BlockStatementsWf(ts, q + 1, end, token, acc + [s]);
    }
  }

  lemma {:induction false} ParseExpressionWf(ts: seq<Token>, pos: nat, prec: Precedence, idents: Option<seq<Token>>)
    requires IdentsOk(idents)
    ensures var r := ParseExpression(ts, pos, prec, idents); r.Ok? && r.value.Some? ==> WfExpr(r.value.value)
    decreases Remaining(ts, pos), 8
  {
    if pos < |ts| && HasPrefix(ts[pos].kind) {
      ParsePrefixWf(ts, pos, idents);
      match ParsePrefix(ts, pos, idents)
      case Fail =>
      case Ok(left, p) => InfixLoopWf(ts, p, prec, left);
    }
  }

  lemma {:induction false} ParsePrefixWf(ts: seq<Token>, pos: nat, idents: Option<seq<Token>>)
    requires pos < |ts| && HasPrefix(ts[pos].kind) && IdentsOk(idents)
    ensures var r := ParsePrefix(ts, pos, idents); r.Ok? ==> WfExpr(r.value)
    decreases Remaining(ts, pos), 7
  {
    match ts[pos].kind
    case LParen => ParseGroupedExpressionWf(ts, pos);
    case LBracket => ParseArrayLiteralWf(ts, pos);
    case Bar => ParseFunctionExpressionWf(ts, pos);
    case Ident(_) => ParseIdentLiteralWf(ts, pos, idents);
    case _ =>
  }

  lemma {:induction false} InfixLoopWf(ts: seq<Token>, pos: nat, prec: Precedence, left: Expression)
    requires WfExpr(left)
    ensures var r := InfixLoop(ts, pos, prec, left); r.Ok? ==> WfExpr(r.value)
    decreases Remaining(ts, pos), 1
  {
    if Below(prec, PeekPrecedence(ts, pos)) && HasInfix(ts[pos + 1].kind) {
      assert PeekPrecedence(ts, pos) == FromTok(ts[pos + 1].kind).value;
      ParseInfixWf(ts, pos + 1, left);
      match ParseInfix(ts, pos + 1, left)
      case Fail =>
      case Ok(e, q) => InfixLoopWf(ts, q, prec, e);
    }
  }

  lemma {:induction false} ParseInfixWf(ts: seq<Token>, pos: nat, left: Expression)
    requires pos < |ts| && HasInfix(ts[pos].kind) && WfExpr(left)
    requires Below(LOWEST, FromTok(ts[pos].kind).value)
    ensures var r := ParseInfix(ts, pos, left); r.Ok? ==> WfExpr(r.value)
    decreases Remaining(ts, pos), 7
  {
    if ts[pos].kind == LParen {
      ParseCallExpressionWf(ts, pos, left);
    } else if ts[pos].kind == Match {
      ParseMatchExpressionWf(ts, pos, left);
    } else {
      ParseInfixExpressionWf(ts, pos, left);
    }
  }

  lemma {:induction false} ParseInfixExpressionWf(ts: seq<Token>, pos: nat, left: Expression)
    requires pos < |ts|
    ensures var r := ParseInfixExpression(ts, pos, left); r.Ok? ==> WfExpr(r.value.right)
    decreases Remaining(ts, pos), 1
  {
    match FromTok(ts[pos].kind)
    case None =>
    case Some(p) => ParseExpressionWf(ts, pos + 1, p, None);
  }

  lemma {:induction false} ParseGroupedExpressionWf(ts: seq<Token>, pos: nat)
    requires pos < |ts| && ts[pos].kind == LParen
    ensures var r := ParseGroupedExpression(ts, pos); r.Ok? ==> WfExpr(r.value)
    decreases Remaining(ts, pos), 1
  {
    ParseExpressionWf(ts, pos + 1, LOWEST, None);
  }

  lemma {:induction false} ParseCallExpressionWf(ts: seq<Token>, pos: nat, callee: Expression)
    requires pos < |ts| && ts[pos].kind == LParen && WfExpr(callee)
    ensures var r := ParseCallExpression(ts, pos, callee); r.Ok? ==> WfExpr(r.value)
    decreases Remaining(ts, pos), 6
  {
    ParseExpressionListWf(ts, pos, RParen);
  }

  lemma {:induction false} ParseArrayLiteralWf(ts: seq<Token>, pos: nat)
    requires pos < |ts| && ts[pos].kind == LBracket
    ensures var r := ParseArrayLiteral(ts, pos); r.Ok? ==> WfExpr(r.value)
    decreases Remaining(ts, pos), 6
  {
    ParseExpressionListWf(ts, pos, RBracket);
  }

  lemma {:induction false} ParseExpressionListWf(ts: seq<Token>, pos: nat, end: TokenType)
    ensures var r := ParseExpressionList(ts, pos, end); r.Ok? ==> AllWfExprs(r.value)
    decreases Remaining(ts, pos), 5
  {
    var r := ParseExpressionList(ts, pos, end);
    if r.Ok? && pos + 1 < |ts| && ts[pos + 1].kind != end {
      var first := ParseExpression(ts, pos + 1, LOWEST, None);
      assert first.Ok? && first.value.Some?;
      var e := first.value.value;
      assert r == ListRest(ts, first.pos + 1, end, [e]);
      ParseExpressionWf(ts, pos + 1, LOWEST, None);
      assert AllWfExprs([e]) by { assert [e][0] == e; }
      ListRestWf(ts, first.pos + 1, end, [e]);
    }
  }

  lemma {:induction false} ListRestWf(ts: seq<Token>, pos: nat, end: TokenType, acc: seq<Expression>)
    requires AllWfExprs(acc)
    ensures var r := ListRest(ts, pos, end, acc); r.Ok? ==> AllWfExprs(r.value)
    decreases Remaining(ts, pos), 9
  {
    if pos < |ts| && ts[pos].kind != end {
      ParseExpressionWf(ts, pos, LOWEST, None);
      match ParseExpression(ts, pos, LOWEST, None)
      case Fail =>
      case Ok(None, q) => ListRestWf(ts, q + 1, end, acc);
      case Ok(Some(e), q) =>
        AppendExpressionWf(acc, e);
        ListRestWf(ts, q + 1, end, acc + [e]);
    }
  }

  lemma {:induction false} ParseFunctionExpressionWf(ts: seq<Token>, pos: nat)
    requires pos < |ts| && ts[pos].kind == Bar
    ensures var r := ParseFunctionExpression(ts, pos); r.Ok? ==> WfExpr(r.value)
    decreases Remaining(ts, pos), 1
  {
    var scan := ParseIdentLiterals(ts, pos + 1);
    if scan.Ok? && scan.pos < |ts| {
      var idents, p1 := scan.value.0, scan.pos;
      var p2 := if ts[p1].kind == Bar then p1 + 1 else p1;
      if (|idents| == 0 || ts[p1].kind == Bar) && p2 + 1 < |ts| && ts[p2].kind == Arrow {
        FunctionExpressionSplit(ts, pos, idents, scan.value.1, p1);
        FunctionBodyWf(ts, p2 + 1, ts[pos], idents);
      }
    }
  }

  /** A function literal whose parameter scan stopped at `p1`, with the `->` after the
      optional `|`, is the body after that arrow. */
  lemma FunctionExpressionSplit(ts: seq<Token>, pos: nat, idents: seq<Token>, kind: IdentTypes, p1: nat)
    requires pos < |ts| && ts[pos].kind == Bar
    requires ParseIdentLiterals(ts, pos + 1) == Ok((idents, kind), p1)
    requires p1 < |ts| && (|idents| == 0 || ts[p1].kind == Bar)
    requires var p2 := if ts[p1].kind == Bar then p1 + 1 else p1; p2 + 1 < |ts| && ts[p2].kind == Arrow
    ensures AllIdents(idents)
    ensures var p2 := if ts[p1].kind == Bar then p1 + 1 else p1;
      ParseFunctionExpression(ts, pos) == FunctionBody(ts, p2 + 1, ts[pos], idents)
  {
    var scan := ParseIdentLiterals(ts, pos + 1);
    assert scan.Ok? && scan.value.0 == idents && scan.pos == p1;
  }

  lemma {:induction false} FunctionBodyWf(ts: seq<Token>, pos: nat, token: Token, idents: seq<Token>)
    requires pos < |ts| && token.kind == Bar && AllIdents(idents)
    ensures var r := FunctionBody(ts, pos, token, idents); r.Ok? ==> WfExpr(r.value)
    decreases Remaining(ts, pos), 9
  {
    if ts[pos].kind == LBrace {
      ParseBlockStatementWf(ts, pos, RBrace);
    } else {
      ParseExpressionWf(ts, pos, LOWEST, None);
      match ParseExpression(ts, pos, LOWEST, None)
      case Ok(Some(e), q) => ShorthandWf(ts[pos], e);
      case _ =>
    }
  }

  lemma {:induction false} ParseMatchExpressionWf(ts: seq<Token>, pos: nat, scrutinee: Expression)
    requires pos < |ts| && ts[pos].kind == Match
    ensures var r := ParseMatchExpression(ts, pos, scrutinee); r.Ok? ==> WfExpr(r.value)
    decreases Remaining(ts, pos), 1
  {
    if pos + 1 < |ts| && ts[pos + 1].kind == LBrace {
      MatchClausesWf(ts, pos + 2, ts[pos], None, []);
    }
  }

  lemma {:induction false} MatchClausesWf(ts: seq<Token>, pos: nat, token: Token, default: Option<Statement>, pairs: seq<MatchPair>)
    requires token.kind == Match && WfDefault(default) && AllWfPairs(pairs)
    ensures var r := MatchClauses(ts, pos, token, default, pairs); r.Ok? ==> WfExpr(r.value)
    decreases Remaining(ts, pos), 10
  {
    if pos + 1 < |ts| && ts[pos + 1].kind != RBrace {
      MatchClauseWf(ts, pos);
      match MatchClause(ts, pos)
      case Fail =>
      case Ok(DefaultClause(body), b) => MatchClausesWf(ts, SkipComma(ts, b), token, Some(body), pairs);
      case Ok(PairClause(pair), b) =>
        AppendPairWf(pairs, pair);
        MatchClausesWf(ts, SkipComma(ts, b), token, default, pairs + [pair]);
    }
  }

  lemma {:induction false} MatchClauseWf(ts: seq<Token>, pos: nat)
    ensures var r := MatchClause(ts, pos); r.Ok? && r.value.DefaultClause? ==> WfDefault(Some(r.value.body))
    ensures var r := MatchClause(ts, pos); r.Ok? && r.value.PairClause? ==> WfPair(r.value.pair)
    decreases Remaining(ts, pos), 9
  {
    ParseExpressionWf(ts, pos, LOWEST, None);
    var e := ParseExpression(ts, pos, LOWEST, None);
    if e.Ok? && e.value.Some? {
      var first, q := e.value.value, e.pos;
      if first.UnderscoreLiteral? {
        if q + 1 < |ts| && ts[q + 1].kind == Arrow {
          ClauseBodyWf(ts, q + 1);
        }
      } else {
        PairClauseWf(ts, pos, first, q);
      }
    }
  }

  /** The clause loop's pair branch: the predicates after `first`, `->`, then the body. */
  lemma {:induction false} PairClauseWf(ts: seq<Token>, pos: nat, first: Expression, q: nat)
    requires ParseExpression(ts, pos, LOWEST, None) == Ok(Some(first), q)
    requires !first.UnderscoreLiteral? && WfExpr(first)
    ensures var r := MatchClause(ts, pos); r.Ok? ==> r.value.PairClause? && WfPair(r.value.pair)
    decreases Remaining(ts, pos), 8
  {
    var r := MatchClause(ts, pos);
    if r.Ok? {
      var m := MorePredicates(ts, q, [first]);
      assert m.Ok? && m.pos + 1 < |ts| && ts[m.pos + 1].kind == Arrow;
      var b := ClauseBody(ts, m.pos + 1);
      assert r == Ok(PairClause(MatchPair(m.value, b.value)), b.pos);
      AppendExpressionWf([], first);
      MorePredicatesWf(ts, q, [first]);
      ClauseBodyWf(ts, m.pos + 1);
    }
  }

  lemma {:induction false} MorePredicatesWf(ts: seq<Token>, pos: nat, acc: seq<Expression>)
    requires AllWfExprs(acc)
    ensures var r := MorePredicates(ts, pos, acc); r.Ok? ==> AllWfExprs(r.value)
    decreases Remaining(ts, pos), 1
  {
    if pos + 2 < |ts| && ts[pos + 1].kind == Comma {
      ParseExpressionWf(ts, pos + 2, LOWEST, None);
      match ParseExpression(ts, pos + 2, LOWEST, None)
      case Ok(Some(e), q) =>
        AppendExpressionWf(acc, e);
        MorePredicatesWf(ts, q, acc + [e]);
      case _ =>
    }
  }

  lemma {:induction false} ClauseBodyWf(ts: seq<Token>, pos: nat)
    requires pos < |ts|
    ensures var r := ClauseBody(ts, pos); r.Ok? ==> WfStmt(r.value)
    decreases Remaining(ts, pos), 1
  {
    if pos + 1 < |ts| {
      if ts[pos + 1].kind == LBrace {
        ParseBlockStatementWf(ts, pos + 1, RBrace);
      } else {
        ParseExpressionWf(ts, pos + 1, LOWEST, None);
        match ParseExpression(ts, pos + 1, LOWEST, None)
        case Ok(Some(e), q) => ShorthandWf(ts[pos], e);
        case _ =>
      }
    }
  }

  // ---------------------------------------------------------------------------------------
  // The program

  lemma {:induction false} ProgramStatementsWf(ts: seq<Token>, start: nat, pos: nat, acc: seq<Statement>)
    requires AllWfStmts(acc)
    ensures var r := ProgramStatements(ts, start, pos, acc); r.Ok? ==> AllWfStmts(r.value)
    decreases Remaining(ts, pos)
  {
    if start != |ts| {
      ParseStatementWf(ts, pos);
      match ParseStatement(ts, pos)
      case Ok(Some(s), q) =>
        AppendStatementWf(acc, s);
        ProgramStatementsWf(ts, start, q + 1, acc + [s]);
      case _ =>
    }
  }

  /** Every program `Parse` returns is a list of well-formed statements. */
  lemma ParseWf(ts: seq<Token>)
    ensures var r := Parse(ts); r.Some? ==> AllWfStmts(r.value.statements)
  {
    ProgramStatementsWf(ts, 0, 0, []);
  }
}
