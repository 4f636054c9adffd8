/** The parser of src/parser.rs as pure functions. Each `Parser` method becomes a function
    of the token sequence and the cursor that returns the cursor after it (`Ok`), or `Fail`
    for every `error(...)`, failed `unwrap()` and `panic!()` of the source. Every function
    leaves the cursor where the source leaves it; `while` loops are tail-recursive functions.

    Termination: every function returns a cursor no smaller than the one it was given, and a
    function that calls another at the same cursor has a larger rank (the second component
    of its `decreases`); every other call is made after a token that exists was consumed. */
module Grammar {
  import opened Options
  import opened Tokens
  import opened Ast

  /** Binding strengths, lowest first; the source compares them by their discriminants. */
  datatype Precedence =
    LOWEST | AND | OR | EQUALS | LESSGREATER | SUM | PRODUCT | PREFIX | CALL | INDEX | MATCH

  function Level(p: Precedence): nat {
    match p
    case LOWEST => 0
    case AND => 1
    case OR => 2
    case EQUALS => 3
    case LESSGREATER => 4
    case SUM => 5
    case PRODUCT => 6
    case PREFIX => 7
    case CALL => 8
    case INDEX => 9
    case MATCH => 10
  }

  /** `a < b` on precedences. */
  predicate Below(a: Precedence, b: Precedence) {
    Level(a) < Level(b)
  }

  /** `Precedence::from_tok`. */
  function FromTok(kind: TokenType): Option<Precedence> {
    match kind
    case Equal => Some(EQUALS)
    case BangEqual => Some(EQUALS)
    case LT => Some(LESSGREATER)
    case GT => Some(LESSGREATER)
    case LTEq => Some(LESSGREATER)
    case GTEq => Some(LESSGREATER)
    case Or => Some(OR)
    case And => Some(AND)
    case Plus => Some(SUM)
    case Minus => Some(SUM)
    case Asterisk => Some(PRODUCT)
    case Slash => Some(PRODUCT)
    case LParen => Some(CALL)
    case LBracket => Some(INDEX)
    case Match => Some(MATCH)
    case _ => Some(LOWEST)
  }

  /** The token kinds `prefix_fn` has a rule for (its answer when `execute` is false). */
  predicate HasPrefix(kind: TokenType) {
    kind.Integer? || kind == Underscore || kind.Float? || kind.String? ||
    kind == LParen || kind == LBracket || kind == Bar || kind.Ident?
  }

  /** The token kinds `infix_fn` has a rule for (its answer when `execute` is false). */
  predicate HasInfix(kind: TokenType) {
    match kind
    case Plus => true
    case Minus => true
    case Slash => true
    case Asterisk => true
    case PlusEqual => true
    case AsteriskEqual => true
    case SlashEqual => true
    case DoubleEqual => true
    case BangEqual => true
    case LT => true
    case GT => true
    case Or => true
    case And => true
    case LTEq => true
    case GTEq => true
    case LParen => true
    case Match => true
    case _ => false
  }

  /** The outcome of a parsing function: a value and the cursor after it, or failure. */
  datatype Res<+T> = Ok(value: T, pos: nat) | Fail

  /** The result of `parse_ident_literals`: whether a `.` or a `,` was seen last. */
  datatype IdentTypes = Destructuring | Normal

  /** The measure of the recursion: how many tokens are left from the cursor. */
  function Remaining(ts: seq<Token>, pos: nat): nat {
    if pos < |ts| then |ts| - pos else 0
  }

  /** `get_current_token`. */
  function Cur(ts: seq<Token>, pos: nat): Option<Token> {
    if pos < |ts| then Some(ts[pos]) else None
  }

  /** `get_peek_token`. */
  function Peek(ts: seq<Token>, pos: nat): Option<Token> {
    Cur(ts, pos + 1)
  }

  /** `expect_peek`: the cursor moves onto the peek token when it has the given kind;
      a missing or different token is fatal. */
  function ExpectPeek(ts: seq<Token>, pos: nat, kind: TokenType): (r: Option<nat>)
    ensures r.Some? <==> pos + 1 < |ts| && ts[pos + 1].kind == kind
    ensures r.Some? ==> r.value == pos + 1
  {
    if pos + 1 < |ts| && ts[pos + 1].kind == kind then Some(pos + 1) else None
  }

  /** `peek_is`: whether the peek token has the given kind; with no peek token it is fatal. */
  function PeekIs(ts: seq<Token>, pos: nat, kind: TokenType): Option<bool> {
    if pos + 1 < |ts| then Some(ts[pos + 1].kind == kind) else None
  }

  /** `get_peek_precedence`, with the `unwrap_or_else(LOWEST)` of its caller. */
  function PeekPrecedence(ts: seq<Token>, pos: nat): Precedence {
    match Peek(ts, pos)
    case None => LOWEST
    case Some(t) => match FromTok(t.kind) case None => LOWEST case Some(p) => p
  }

  // ---------------------------------------------------------------------------------------
  // The shape of every tree the parser builds

  /** The operators that can head an infix node: an infix rule, a precedence above
      `LOWEST`, and not one of the two rules (call, match) that build other nodes. */
  predicate IsBinaryOperator(kind: TokenType) {
    HasInfix(kind) && kind != LParen && kind != Match && Below(LOWEST, FromTok(kind).value)
  }

  predicate AllIdents(ids: seq<Token>) {
    forall i :: 0 <= i < |ids| ==> ids[i].kind.Ident?
  }

  /** A scanned identifier list that may stand for an identifier expression. */
  predicate IdentsOk(idents: Option<seq<Token>>) {
    idents.Some? ==> |idents.value| > 0 && AllIdents(idents.value)
  }

  // ---------------------------------------------------------------------------------------
  // Identifier chains (no recursion into the rest of the parser)

  /** The loop of `parse_ident_literals`: `.` or `,` followed by an identifier extends the
      chain; any other peek token is consumed and ends it; no peek token ends it in place. */
  function IdentChain(ts: seq<Token>, pos: nat, idents: seq<Token>, kind: IdentTypes)
    : (r: Res<(seq<Token>, IdentTypes)>)
    ensures r.Ok? ==> r.pos >= pos
    ensures r.Ok? ==> |idents| <= |r.value.0| && (|idents| > 0 ==> r.value.0[0] == idents[0])
    ensures r.Ok? && AllIdents(idents) ==> AllIdents(r.value.0)
    ensures r.Ok? && pos < |ts| && ts[pos].kind.Ident? ==>
              r.pos < |ts| && (ts[r.pos].kind.Ident? || (r.pos > pos && ts[r.pos - 1].kind.Ident?))
    decreases Remaining(ts, pos)
  {
    match Peek(ts, pos)
    case None => Ok((idents, kind), pos)
    case Some(peek) =>
      if peek.kind == Period || peek.kind == Comma then
        if pos + 2 < |ts| && ts[pos + 2].kind.Ident? then
          IdentChain(ts, pos + 2, idents + [ts[pos + 2]], if peek.kind == Period then Normal else Destructuring)
        else Fail
      else Ok((idents, kind), pos + 1)
  }

  /** `parse_ident_literals`: the identifier at the cursor (if it is one) and the chain after it. */
  function ParseIdentLiterals(ts: seq<Token>, pos: nat): (r: Res<(seq<Token>, IdentTypes)>)
    ensures r.Ok? ==> r.pos >= pos
    ensures r.Ok? ==> AllIdents(r.value.0)
    ensures r.Ok? && pos < |ts| && ts[pos].kind.Ident? ==> |r.value.0| > 0 && r.value.0[0] == ts[pos]
    ensures r.Ok? && pos < |ts| && ts[pos].kind.Ident? ==>
              r.pos < |ts| && (ts[r.pos].kind.Ident? || (r.pos > pos && ts[r.pos - 1].kind.Ident?))
  {
    var first := if pos < |ts| && ts[pos].kind.Ident? then [ts[pos]] else [];
    IdentChain(ts, pos, first, Destructuring)
  }

  /** The loop of `parse_ident_literal`: a `.` followed by an identifier extends the path. */
  function IdentPath(ts: seq<Token>, pos: nat, idents: seq<Token>): (r: Res<seq<Token>>)
    ensures r.Ok? ==> r.pos >= pos
    ensures r.Ok? ==> |idents| <= |r.value|
    ensures r.Ok? && AllIdents(idents) ==> AllIdents(r.value)
    decreases Remaining(ts, pos)
  {
    match Peek(ts, pos)
    case None => Ok(idents, pos)
    case Some(peek) =>
      if peek.kind == Period then
        if pos + 2 < |ts| && ts[pos + 2].kind.Ident? then IdentPath(ts, pos + 2, idents + [ts[pos + 2]])
        else Fail
      else Ok(idents, pos)
  }

  /** `parse_ident_literal`: a path already scanned by an identifier statement is used as
      it is, without consuming anything; otherwise the dotted path at the cursor is read. */
  function ParseIdentLiteral(ts: seq<Token>, pos: nat, already: Option<seq<Token>>): (r: Res<Expression>)
    requires pos < |ts|
    ensures r.Ok? ==> r.pos >= pos
    ensures r.Ok? ==> r.value.NormalIdentifier?
  {
    match already
    case Some(z) => Ok(NormalIdentifier(z), pos)
    case None =>
      match IdentPath(ts, pos, [ts[pos]])
      case Fail => Fail
      case Ok(idents, q) => Ok(NormalIdentifier(idents), q)
  }

  // ---------------------------------------------------------------------------------------
  // Statements and expressions (one mutually recursive group)

  /** `parse_statement`: dispatch on the current token; `None` when no token is left. */
  function ParseStatement(ts: seq<Token>, pos: nat): (r: Res<Option<Statement>>)
    ensures r.Ok? ==> r.pos >= pos
    ensures r.Ok? && r.value.Some? ==> pos < |ts|
    ensures pos >= |ts| ==> r == Ok(None, pos)
    decreases Remaining(ts, pos), 11
  {
    if pos >= |ts| then Ok(None, pos)
    else
      match ts[pos].kind
      case Import => ParseImportStatement(ts, pos)
      case Ident(_) => ParseIdentifierStatement(ts, pos)
      case Return => ParseReturnStatement(ts, pos)
      case _ => ParseExpressionStatement(ts, pos, None)
  }

  /** `parse_import_statement`: the next token, whatever its kind, is the imported name. */
  function ParseImportStatement(ts: seq<Token>, pos: nat): (r: Res<Option<Statement>>)
    requires pos < |ts| && ts[pos].kind == Import
    ensures r.Ok? ==> r.pos >= pos
    ensures r.Ok? <==> pos + 1 < |ts|
    ensures r.Ok? ==> r.value.Some? && r.value.value.ImportStatement? && r.value.value.name == ts[pos + 1]
  {
    if pos + 1 < |ts| then Ok(Some(ImportStatement(ts[pos], ts[pos + 1])), pos + 1) else Fail
  }

  /** `parse_expression_statement`: an expression at the lowest precedence, or `None` when
      the current token starts no expression. */
  function ParseExpressionStatement(ts: seq<Token>, pos: nat, idents: Option<seq<Token>>)
    : (r: Res<Option<Statement>>)
    ensures r.Ok? ==> r.pos >= pos
    ensures r.Ok? && r.value.Some? ==> r.value.value.ExpressionStatement?
    ensures r.Ok? ==> pos < |ts| && (r.value.None? <==> !HasPrefix(ts[pos].kind))
    decreases Remaining(ts, pos), 9
  {
    if pos >= |ts| then Fail
    else
      match ParseExpression(ts, pos, LOWEST, idents)
      case Fail => Fail
      case Ok(None, q) => Ok(None, q)
      case Ok(Some(e), q) => Ok(Some(ExpressionStatement(ts[pos], e)), q)
  }

  /** `parse_identifier_statement`: scan the identifier chain, step back one token unless
      the scan stopped on an identifier, then let the peek token decide: `:=` defines, `=`
      updates, anything else (or nothing) reparses the region as an expression statement
      that reuses the scanned identifiers. Below, `next` is the peek position after the
      step back, so the cursor itself is at `next - 1`. */
  function ParseIdentifierStatement(ts: seq<Token>, pos: nat): (r: Res<Option<Statement>>)
    requires pos < |ts| && ts[pos].kind.Ident?
    ensures r.Ok? ==> r.pos >= pos
    ensures r.Ok? ==> r.value.Some?
    decreases Remaining(ts, pos), 10
  {
    match ParseIdentLiterals(ts, pos)
    case Fail => Fail
    case Ok((idents, _), p0) =>
      var next := if p0 < |ts| && !ts[p0].kind.Ident? then p0 else p0 + 1;
      if next < |ts| && (ts[next].kind == ColonEqual || ts[next].kind == Equal) then Assignment(ts, next, idents)
      else ParseExpressionStatement(ts, next - 1, Some(idents))
  }

  /** The assignment arm of `parse_identifier_statement`, at its `:=` or `=`: the value,
      which must be there, after it; `:=` defines the scanned identifiers and `=` updates
      the scanned path. */
  function Assignment(ts: seq<Token>, pos: nat, idents: seq<Token>): (r: Res<Option<Statement>>)
    requires pos < |ts| && (ts[pos].kind == ColonEqual || ts[pos].kind == Equal)
    ensures r.Ok? ==> r.pos >= pos
    ensures r.Ok? ==> r.value.Some?
    ensures r.Ok? <==> ParseExpression(ts, pos + 1, LOWEST, None).Ok? && ParseExpression(ts, pos + 1, LOWEST, None).value.Some?
    decreases Remaining(ts, pos), 1
  {
    var token := ts[pos];
    match ParseExpression(ts, pos + 1, LOWEST, None)
    case Ok(Some(e), q) =>
      if token.kind == ColonEqual then Ok(Some(AssignStatement(token, e, DefinitionIdentifier(idents))), q)
      else Ok(Some(UpdateStatement(token, e, NormalIdentifier(idents))), q)
    case _ => Fail
  }

  /** `parse_return_statement`: `return` and one expression, which must be there. */
  function ParseReturnStatement(ts: seq<Token>, pos: nat): (r: Res<Option<Statement>>)
    requires pos < |ts|
    ensures r.Ok? ==> r.pos >= pos
    ensures r.Ok? ==> r.value.Some? && r.value.value.ReturnStatement?
    decreases Remaining(ts, pos), 1
  {
    match ParseExpression(ts, pos + 1, LOWEST, None)
    case Ok(Some(e), q) => Ok(Some(ReturnStatement(ts[pos], e)), q)
    case _ => Fail
  }

  /** `parse_block_statement`: consume the opener, then parse statements until the current
      token has the end kind; running out of tokens first is fatal. */
  function ParseBlockStatement(ts: seq<Token>, pos: nat, end: TokenType): (r: Res<Statement>)
    ensures r.Ok? ==> r.pos >= pos
    ensures r.Ok? ==> pos < r.pos < |ts| && ts[r.pos].kind == end
    ensures r.Ok? ==> r.value.BlockStatement? && r.value.token == ts[pos]
    decreases Remaining(ts, pos), 1
  {
    if pos >= |ts| then Fail else BlockStatements(ts, pos + 1, end, ts[pos], [])
  }

  /** The loop of `parse_block_statement`: each statement, or each position where none
      starts, is followed by one consumed token. */
  function BlockStatements(ts: seq<Token>, pos: nat, end: TokenType, token: Token, acc: seq<Statement>)
    : (r: Res<Statement>)
    ensures r.Ok? ==> r.pos >= pos
    ensures r.Ok? ==> r.pos < |ts| && ts[r.pos].kind == end
    ensures r.Ok? ==> r.value.BlockStatement? && r.value.token == token && |acc| <= |r.value.statements|
    decreases Remaining(ts, pos), 12
  {
    if pos >= |ts| then Fail
    else if ts[pos].kind == end then Ok(BlockStatement(token, acc), pos)
    else
      match ParseStatement(ts, pos)
      case Fail => Fail
      case Ok(None, q) => BlockStatements(ts, q + 1, end, token, acc)
      case Ok(Some(s), q) => BlockStatements(ts, q + 1, end, token, acc + [s])
  }

  /** `parse_expression`: `None` when the current token has no prefix rule; otherwise the
      prefix expression, extended by infix rules while the peek token binds tighter than
      `prec`. */
  function ParseExpression(ts: seq<Token>, pos: nat, prec: Precedence, idents: Option<seq<Token>>)
    : (r: Res<Option<Expression>>)
    ensures r.Ok? ==> r.pos >= pos
    ensures r.Ok? ==> pos < |ts| && (r.value.None? <==> !HasPrefix(ts[pos].kind))
    ensures r.Ok? && r.value.None? ==> r.pos == pos
    decreases Remaining(ts, pos), 8
  {
    if pos >= |ts| then Fail
    else if !HasPrefix(ts[pos].kind) then Ok(None, pos)
    else
      match ParsePrefix(ts, pos, idents)
      case Fail => Fail
      case Ok(left, p) =>
        match InfixLoop(ts, p, prec, left)
        case Fail => Fail
        case Ok(e, q) => Ok(Some(e), q)
  }

  /** `prefix_fn` with `execute` true. */
  function ParsePrefix(ts: seq<Token>, pos: nat, idents: Option<seq<Token>>): (r: Res<Expression>)
    requires pos < |ts| && HasPrefix(ts[pos].kind)
    ensures r.Ok? ==> r.pos >= pos
    decreases Remaining(ts, pos), 7
  {
    var t := ts[pos];
    match t.kind
    case Integer(_) => Ok(IntegerLiteral(t), pos)
    case Underscore => Ok(UnderscoreLiteral(t), pos)
    case Float(_) => Ok(FloatLiteral(t), pos)
    case String(_) => Ok(StringLiteral(t), pos)
    case LParen => ParseGroupedExpression(ts, pos)
    case LBracket => ParseArrayLiteral(ts, pos)
    case Bar => ParseFunctionExpression(ts, pos)
    case Ident(_) => ParseIdentLiteral(ts, pos, idents)
  }

  /** The loop of `parse_expression`. It stops when `prec` is not below the peek token's
      precedence, and it also stops at a peek token that has no infix rule. */
  function InfixLoop(ts: seq<Token>, pos: nat, prec: Precedence, left: Expression): (r: Res<Expression>)
    ensures r.Ok? ==> r.pos >= pos
    ensures r.Ok? ==> !Below(prec, PeekPrecedence(ts, r.pos)) || (r.pos + 1 < |ts| && !HasInfix(ts[r.pos + 1].kind))
    decreases Remaining(ts, pos), 1
  {
    if !Below(prec, PeekPrecedence(ts, pos)) then Ok(left, pos)
    else if !HasInfix(ts[pos + 1].kind) then Ok(left, pos)
    else
      match ParseInfix(ts, pos + 1, left)
      case Fail => Fail
      case Ok(e, q) => InfixLoop(ts, q, prec, e)
  }

  /** `infix_fn` with `execute` true. */
  function ParseInfix(ts: seq<Token>, pos: nat, left: Expression): (r: Res<Expression>)
    requires pos < |ts| && HasInfix(ts[pos].kind)
    ensures r.Ok? ==> r.pos >= pos
    decreases Remaining(ts, pos), 7
  {
    if ts[pos].kind == LParen then ParseCallExpression(ts, pos, left)
    else if ts[pos].kind == Match then ParseMatchExpression(ts, pos, left)
    else ParseInfixExpression(ts, pos, left)
  }

  /** `parse_infix_expression`: the right operand is parsed at the operator's own
      precedence, which makes chains of equal precedence group to the left. */
  function ParseInfixExpression(ts: seq<Token>, pos: nat, left: Expression): (r: Res<Expression>)
    requires pos < |ts|
    ensures r.Ok? ==> r.pos >= pos
    ensures r.Ok? ==> r.value.InfixExpression? && r.value.token == ts[pos] && r.value.left == left
    decreases Remaining(ts, pos), 1
  {
    var current := ts[pos];
    match FromTok(current.kind)
    case None => Fail
    case Some(p) =>
      match ParseExpression(ts, pos + 1, p, None)
      case Ok(Some(right), q) => Ok(InfixExpression(current, left, right), q)
      case _ => Fail
  }

  /** `parse_grouped_expression`: the inner expression itself; then `expect_peek(RParen)`
      when a peek token exists, or else the current token must be `)` if there is one. */
  function ParseGroupedExpression(ts: seq<Token>, pos: nat): (r: Res<Expression>)
    requires pos < |ts| && ts[pos].kind == LParen
    ensures r.Ok? ==> r.pos >= pos
    ensures r.Ok? ==> r.pos >= |ts| || ts[r.pos].kind == RParen
    decreases Remaining(ts, pos), 1
  {
    match ParseExpression(ts, pos + 1, LOWEST, None)
    case Ok(Some(e), q) =>
      if q + 1 < |ts| then
        match ExpectPeek(ts, q, RParen)
        case None => Fail
        case Some(p) => Ok(e, p)
      else if q < |ts| && ts[q].kind != RParen then Fail
      else Ok(e, q)
    case _ => Fail
  }

  /** `parse_call_expression`: the argument list up to `)`, applied to the callee. */
  function ParseCallExpression(ts: seq<Token>, pos: nat, callee: Expression): (r: Res<Expression>)
    requires pos < |ts| && ts[pos].kind == LParen
    ensures r.Ok? ==> r.pos >= pos
    ensures r.Ok? ==> r.value.CallExpression? && r.value.token == ts[pos] && r.value.callee == callee
    decreases Remaining(ts, pos), 6
  {
    match ParseExpressionList(ts, pos, RParen)
    case Fail => Fail
    case Ok(args, q) => Ok(CallExpression(ts[pos], args, callee), q)
  }

  /** `parse_array_literal`: the element list up to `]`. */
  function ParseArrayLiteral(ts: seq<Token>, pos: nat): (r: Res<Expression>)
    requires pos < |ts| && ts[pos].kind == LBracket
    ensures r.Ok? ==> r.pos >= pos
    ensures r.Ok? ==> r.value.ArrayLiteral? && r.value.token == ts[pos]
    decreases Remaining(ts, pos), 6
  {
    match ParseExpressionList(ts, pos, RBracket)
    case Fail => Fail
    case Ok(elements, q) => Ok(ArrayLiteral(ts[pos], elements), q)
  }

  /** `parse_expression_list`: empty when the terminator follows the opener at once;
      otherwise a first expression, which must be there, and the rest of the list. */
  function ParseExpressionList(ts: seq<Token>, pos: nat, end: TokenType): (r: Res<seq<Expression>>)
    ensures r.Ok? ==> r.pos >= pos
    ensures pos + 1 < |ts| && ts[pos + 1].kind == end ==> r == Ok([], pos + 1)
    ensures r.Ok? && r.value == [] ==> pos + 1 < |ts| && ts[pos + 1].kind == end
    ensures r.Ok? ==> pos < r.pos && (r.pos >= |ts| || ts[r.pos].kind == end)
    decreases Remaining(ts, pos), 5
  {
    match PeekIs(ts, pos, end)
    case None => Fail
    case Some(true) => Ok([], pos + 1)
    case Some(false) =>
      match ParseExpression(ts, pos + 1, LOWEST, None)
      case Ok(Some(e), q) => ListRest(ts, q + 1, end, [e])
      case _ => Fail
  }

  /** The loop of `parse_expression_list`: until the terminator or the end of the tokens,
      parse an expression where one starts and consume one token. Separators are not
      checked: a token with no prefix rule, such as a comma, is skipped. */
  function ListRest(ts: seq<Token>, pos: nat, end: TokenType, acc: seq<Expression>)
    : (r: Res<seq<Expression>>)
    ensures r.Ok? ==> r.pos >= pos
    ensures r.Ok? ==> r.pos >= |ts| || ts[r.pos].kind == end
    ensures r.Ok? ==> |acc| <= |r.value|
    decreases Remaining(ts, pos), 9
  {
    if pos >= |ts| || ts[pos].kind == end then Ok(acc, pos)
    else
      match ParseExpression(ts, pos, LOWEST, None)
      case Fail => Fail
      case Ok(None, q) => ListRest(ts, q + 1, end, acc)
      case Ok(Some(e), q) => ListRest(ts, q + 1, end, acc + [e])
  }

  /** `parse_function_expression`: `|`, the parameter chain, `|` (required after a
      nonempty chain), `->`, then the body. */
  function ParseFunctionExpression(ts: seq<Token>, pos: nat): (r: Res<Expression>)
    requires pos < |ts| && ts[pos].kind == Bar
    ensures r.Ok? ==> r.pos >= pos
    ensures r.Ok? ==> r.value.FunctionLiteral?
    ensures r.Ok? ==>
      var scan := ParseIdentLiterals(ts, pos + 1);
      && scan.Ok? && scan.pos < |ts|
      && (|scan.value.0| > 0 ==> ts[scan.pos].kind == Bar)
      && (var arrow := if ts[scan.pos].kind == Bar then scan.pos + 1 else scan.pos;
          arrow + 1 < |ts| && ts[arrow].kind == Arrow)
      && r.value.token == ts[pos] && r.value.parameters == DefinitionIdentifier(scan.value.0)
    decreases Remaining(ts, pos), 1
  {
    var token := ts[pos];
    match ParseIdentLiterals(ts, pos + 1)
    case Fail => Fail
    case Ok((idents, _), p1) =>
      if p1 >= |ts| then Fail
      else if |idents| != 0 && ts[p1].kind != Bar then Fail
      else
        var p2 := if ts[p1].kind == Bar then p1 + 1 else p1;
        if p2 >= |ts| || ts[p2].kind != Arrow then Fail
        else
          if p2 + 1 >= |ts| then Fail else FunctionBody(ts, p2 + 1, token, idents)
  }

  /** The body of a function literal, at the token after `->`: a `{ ... }` block, or a
      single expression wrapped as a one-statement block that returns it (both carry that
      first body token), after which one more token is consumed. */
  function FunctionBody(ts: seq<Token>, pos: nat, token: Token, idents: seq<Token>): (r: Res<Expression>)
    requires pos < |ts| && token.kind == Bar && AllIdents(idents)
    ensures r.Ok? ==> r.pos >= pos
    ensures r.Ok? ==> r.value.FunctionLiteral?
    ensures r.Ok? ==> r.value.token == token && r.value.parameters == DefinitionIdentifier(idents)
    decreases Remaining(ts, pos), 9
  {
    var tok := ts[pos];
    if tok.kind == LBrace then
      match ParseBlockStatement(ts, pos, RBrace)
      case Fail => Fail
      case Ok(body, q) => Ok(FunctionLiteral(token, DefinitionIdentifier(idents), body), q)
    else
      match ParseExpression(ts, pos, LOWEST, None)
      case Ok(Some(e), q) =>
        Ok(FunctionLiteral(token, DefinitionIdentifier(idents), Shorthand(tok, e)), q + 1)
      case _ => Fail
  }

  /** `parse_match_expression`: `{` must follow `match`; the clauses come next. The
      scrutinee is not kept. */
  function ParseMatchExpression(ts: seq<Token>, pos: nat, scrutinee: Expression): (r: Res<Expression>)
    requires pos < |ts| && ts[pos].kind == Match
    ensures r.Ok? ==> r.pos >= pos
    ensures r.Ok? ==> r.value.MatchExpression? && r.value.token == ts[pos]
    decreases Remaining(ts, pos), 1
  {
    match ExpectPeek(ts, pos, LBrace)
    case None => Fail
    case Some(p) => MatchClauses(ts, p + 1, ts[pos], None, [])
  }

  /** The cursor after an optional `, ` between match clauses (two tokens are consumed). */
  function SkipComma(ts: seq<Token>, pos: nat): (q: nat)
    ensures q == pos || q == pos + 2
    ensures q == pos + 2 <==> Peek(ts, pos).Some? && Peek(ts, pos).value.kind == Comma
  {
    if pos + 1 < |ts| && ts[pos + 1].kind == Comma then pos + 2 else pos
  }

  /** One clause of a match, read up to the end of its body. */
  datatype Clause = DefaultClause(body: Statement) | PairClause(pair: MatchPair)

  /** The clause loop of `parse_match_expression`, which runs while the PEEK token is not
      `}`. A default clause replaces the default; any other clause is appended to the
      pairs. An optional `,` after the clause is skipped. */
  function MatchClauses(ts: seq<Token>, pos: nat, token: Token, default: Option<Statement>, pairs: seq<MatchPair>)
    : (r: Res<Expression>)
    ensures r.Ok? ==> r.pos >= pos
    ensures r.Ok? ==> r.pos + 1 < |ts| && ts[r.pos + 1].kind == RBrace
    ensures r.Ok? ==> r.value.MatchExpression? && r.value.token == token && |pairs| <= |r.value.pairs|
    decreases Remaining(ts, pos), 10
  {
    if pos + 1 >= |ts| then Fail
    else if ts[pos + 1].kind == RBrace then Ok(MatchExpression(token, default, pairs), pos)
    else
      match MatchClause(ts, pos)
      case Fail => Fail
      case Ok(DefaultClause(body), b) => MatchClauses(ts, SkipComma(ts, b), token, Some(body), pairs)
      case Ok(PairClause(pair), b) =>
        MatchClauses(ts, SkipComma(ts, b), token, default, pairs + [pair])
  }

  /** One iteration of the clause loop: a first predicate, which must be there; when it is
      `_` the clause is the default and `->` must follow at once, otherwise further
      predicates may follow before the `->`; then the body. */
  function MatchClause(ts: seq<Token>, pos: nat): (r: Res<Clause>)
    ensures r.Ok? ==> r.pos > pos
    decreases Remaining(ts, pos), 9
  {
    match ParseExpression(ts, pos, LOWEST, None)
    case Fail => Fail
    case Ok(None, _) => Fail
    case Ok(Some(first), q) =>
      if first.UnderscoreLiteral? then
        match ExpectPeek(ts, q, Arrow)
        case None => Fail
        case Some(a) =>
          match ClauseBody(ts, a)
          case Fail => Fail
          case Ok(body, b) => Ok(DefaultClause(body), b)
      else
        match MorePredicates(ts, q, [first])
        case Fail => Fail
        case Ok(predicates, q2) =>
          match ExpectPeek(ts, q2, Arrow)
          case None => Fail
          case Some(a) =>
            match ClauseBody(ts, a)
            case Fail => Fail
            case Ok(body, b) => Ok(PairClause(MatchPair(predicates, body)), b)
  }

  /** The predicate loop of a match clause: each `,` must be followed by some token, where
      the next predicate expression, which must be there, is parsed. */
  function MorePredicates(ts: seq<Token>, pos: nat, acc: seq<Expression>): (r: Res<seq<Expression>>)
    ensures r.Ok? ==> r.pos >= pos
    ensures r.Ok? ==> |acc| <= |r.value|
    decreases Remaining(ts, pos), 1
  {
    if pos + 1 < |ts| && ts[pos + 1].kind == Comma then
      if pos + 2 < |ts| then
        match ParseExpression(ts, pos + 2, LOWEST, None)
        case Ok(Some(e), q) => MorePredicates(ts, q, acc + [e])
        case _ => Fail
      else Fail
    else Ok(acc, pos)
  }

  /** The body of a match clause, with the cursor on its `->`: a `{ ... }` block, or a
      single expression wrapped as a block that returns it (both carry the `->` token). */
  function ClauseBody(ts: seq<Token>, pos: nat): (r: Res<Statement>)
    requires pos < |ts|
    ensures r.Ok? ==> r.pos >= pos
    ensures r.Ok? ==> r.value.BlockStatement?
    decreases Remaining(ts, pos), 1
  {
    if pos + 1 >= |ts| then Fail
    else if ts[pos + 1].kind == LBrace then ParseBlockStatement(ts, pos + 1, RBrace)
    else
      match ParseExpression(ts, pos + 1, LOWEST, None)
      case Ok(Some(e), q) => Ok(Shorthand(ts[pos], e), q)
      case _ => Fail
  }

  // ---------------------------------------------------------------------------------------
  // The program

  /** The loop of `parse_program`. Its guard compares a copy of the starting cursor with
      the token count and is never updated, so once entered the loop runs until a statement
      parse returns `None`; each statement is followed by one consumed token. */
  function ProgramStatements(ts: seq<Token>, start: nat, pos: nat, acc: seq<Statement>)
    : (r: Res<seq<Statement>>)
    ensures r.Ok? ==> |acc| <= |r.value|
    decreases Remaining(ts, pos)
  {
    if start == |ts| then Ok(acc, pos)
    else
      match ParseStatement(ts, pos)
      case Fail => Fail
      case Ok(None, q) => Ok(acc, q)
      case Ok(Some(s), q) => ProgramStatements(ts, start, q + 1, acc + [s])
  }

  /** `parse_program` from cursor `pos`. */
  function ParseProgramFrom(ts: seq<Token>, pos: nat): (r: Res<Program>)
  {
    match ProgramStatements(ts, pos, pos, [])
    case Fail => Fail
    case Ok(statements, q) => Ok(Program(statements), q)
  }

  /** `Parser::new(tokens).parse_program()`: the program, or `None` on a fatal error. */
  function Parse(ts: seq<Token>): (r: Option<Program>)
  {
    match ParseProgramFrom(ts, 0)
    case Fail => None
    case Ok(p, _) => Some(p)
  }
}
