# Clay front end in Dafny

This project models the front end of the Clay scripting language: the tokenizer
(`src/lexer.rs` with the keyword table of `src/token.rs`) and the Pratt parser
(`src/parser.rs`). It also proves properties of both.

- **Tokens** (`tokens.dfy`) hold the closed set of token kinds, positions (line, column and
  absolute character offset) and the keyword classifier.
- **Lexing** (`lexer.dfy`) has two parts:
  - specification functions: `Step` is one call of `next`, and `Lex` is the whole token
    sequence;
  - the `Lexer` class: a `const input` and a mutable `position`, whose methods mirror
    `consume_char`, `lex_single_char`, `lex_double_char` and the arms of `next`.
  - Line and column are stated exactly wherever the cursor crosses text: `Walked` says
    that the line grows by the newlines crossed and that the column counts from the last
    of them.
  - `Lexer.Next` is proved to return the token `Step` computes and to leave the cursor
    where `Step` leaves it. `Tokenize` (the `collect()` of `src/main.rs:29`) is proved to
    return `Lex(input)`.
- **Ast** (`ast.dfy`) has the expression and statement trees that `src/parser.rs` actually
  builds.
- **Grammar** (`grammar.dfy`) turns every `Parser` method into a pure function over the
  token sequence and a cursor.
  - A function returns the value and the cursor after it (`Ok`), or `Fail`. `Fail` stands
    for every `error(...)` (which exits the process), every failed `unwrap()` and every
    `panic!()`.
  - The `while` loops become tail-recursive functions.
  - Termination is shown by a lexicographic measure: the tokens left, then a rank. No fuel
    and no `decreases *` are used.
- **Parsing** (`parser.dfy`) has the `Parser` class: the token vector and a mutable cursor
  `current`.
  - Each method is proved to return what the function of the same name in `Grammar`
    returns, and to leave `current` where that function leaves the cursor (`Follows`).
  - A few loop bodies of the source are separate methods here, each proved against its own
    function: `ParseFunctionBody`, `ParseAssignment`, `ParseListRest`,
    `ParseMatchClauses`, `ParseMatchClause`, `ParseMorePredicates` and `ParseClauseBody`.
- **WellFormed** (`wellformed.dfy`) defines the shape of every tree the parser can build
  and proves that every successful parse has that shape. The shape covers:
  - node tokens;
  - nonempty identifier paths;
  - definition-list parameters;
  - blocks as bodies;
  - operators with a precedence.
- **ParseLaws** (`parse_laws.dfy`) states, for all token sequences:
  - what each whole loop reads: the identifier chain (`ChainLayout`, `ChainStop`), the
    predicate loop (`PredicatesLayout`), one clause (`ClauseShape`) and the clause loop
    (`MatchClausesCollect`);
  - what each dispatch does at a token of a given kind;
  - the operator and precedence tables.
  It also holds one-step unfolding laws that only serve as proof steps for the examples
  (`LoopStops`, `ChainEnds`, `BlockStep`, `ClausesPair` and the like); they have no row
  below.
- **ParseExamples** (`parse_examples.dfy`) has whole parses of short programs, built from
  the laws. They cover:
  - precedence and left grouping;
  - grouping;
  - destructuring definitions and path updates;
  - calls;
  - both function-literal forms;
  - `match` defaults and pair clauses;
  - adjacent identifiers.
- **Frontend** (`frontend.dfy`) trims a line, lexes it, then parses the token vector, as
  `src/main.rs:26-30` does.

## Quirks of the code, modelled as written

Each of these is what the code does, and the model does the same:

- **Identifier statements.** `:=` and `=` both take whatever chain was scanned. The
  `IdentTypes` result of the scan is ignored, so `a.b := 1` defines `[a, b]` and
  `x, y = 1` updates `[x, y]`.
- **Lists.** Commas in argument and element lists are not checked. Any token without a
  prefix rule is skipped. The list ends with the cursor on the terminator, or at the end
  of the tokens, as in `f(1`.
- **Function literals.**
  - The `|` check applies only after a nonempty parameter chain.
  - `| | -> e` has an empty `DefinitionIdentifier`.
  - A shorthand body's block carries the first body token.
- **Strings.** An unterminated string is a failure: `end` stays 0 and the slice
  `start..0` panics. A string token carries the position after its closing quote.
- **Operators and identifiers.**
  - `==` has precedence `LOWEST`, and so do `+=`, `*=` and `/=`. So `2 == 3` is the
    statement `2`, after which the program stops.
  - A lone `<` or `>` lexes as `Asterisk`.
  - `_` always lexes as `Underscore`, so identifiers start with a letter.
- **Adjacent identifiers.** When the token that ends the chain scan is itself an
  identifier, the cursor does not step back onto the chain. The statement is parsed at
  that identifier, with the scanned path as its operand, and the identifier is lost. So:
  - `x y` is the expression statement `x`, carrying the token `y`;
  - `x y := 1` defines only `[x]`;
  - `x y + 1` parses as `x + 1`.
- **`parse_program`'s guard.** It compares a copy of the starting cursor with the token
  count and is never updated.

## Model

| member | source | states |
|---|---|---|
| Tokens.MatchKeyword | src/token.rs:53-60 | the result is `Match`, `Import` or `Return` exactly for those three words; every other word gives `Ident` with the very same text |
| Tokens.KeywordsAreExact | src/token.rs:54-58 | lookup is case-sensitive and whole-word: `Match`, `RETURN`, `returns` and `imp` are identifiers |
| Tokens.NewToken | src/token.rs:70-72 | the token holds exactly the given kind and position |
| Tokens.FromKeyword | src/token.rs:74-80 | the kind is the keyword classification of the word; the position is the given one; an identifier keeps the word |
| Tokens.NewPosition | src/token.rs:107-109 | the position holds exactly the three given counters |
| Lexing.CharAt | src/lexer.rs:26-28 | a character exists exactly when the offset is inside the input, and it is the character there |
| Lexing.Consume | src/lexer.rs:21-24 | same line, column + 1, offset + 1 |
| Lexing.ConsumeNewline | src/lexer.rs:292-295 | line + 1; the column is 1, because it is reset to 0 before the consume; offset + 1 |
| Lexing.SkipSpace | src/lexer.rs:292-301 | every skipped character is a blank or a newline; the skip stops at the end of the input or at a character that is neither; the line grows by the newlines skipped, and the column counts from the last of them (or from the old column if none) |
| Lexing.NumeralEnd | src/lexer.rs:206-219 | the numeral is the maximal run of digits and of `.`s that are followed by a digit |
| Lexing.WordEnd | src/lexer.rs:277-284 | the word is the maximal run of letters and `_` |
| Lexing.ScanString | src/lexer.rs:254-268 | the closing quote is the first `"` after the opening one, and the position after the scan is just past it; `None` exactly when no `"` follows; the line grows by the newlines inside the string, and the column counts from the last of them |
| Lexing.LexStringAt | src/lexer.rs:250-273 | failure exactly when no `"` follows the opening one; otherwise the closing quote is the first `"` after the opening one and the token is the text strictly between the quotes, at the position just past the closing one, with line and column tracked across the string |
| Lexing.Step | src/lexer.rs:55-312 | a token moves the cursor forward by at least one character and lies between the start and end of the step; at the end of the input the step yields nothing and leaves the cursor unchanged |
| Lexing.StepFailure | src/lexer.rs:55-312 | a step fails exactly when, after the blanks, the character starts no token (not a digit, letter, `"` or operator symbol), or starts a numeral above the `usize` maximum or with two `.`s, or opens a string that is never closed |
| Lexing.SymbolStart | src/lexer.rs:63-194 | the operator table has an arm for a character exactly when it is one of the twenty listed symbols, whatever follows it |
| Lexing.OperatorTable | src/lexer.rs:63-194 | operators are one or two characters wide; the two-character form is chosen exactly for the eleven listed pairs; a lone `<` or `>` is `Asterisk`; `\|` is always `Bar` |
| Lexing.LexFromInOrder | src/lexer.rs:55-312 | the tokens lexed from a position lie between it and the end of the input, with offsets that never decrease |
| Lexing.LexInOrder | src/main.rs:29 | the tokens of a whole input lie within it, in order |
| Lexing.Lexer.constructor | src/lexer.rs:14-19 | a fresh lexer is at line 1, column 0, offset 0 |
| Lexing.Lexer.ConsumeChar | src/lexer.rs:21-24 | the new position is `Consume` of the old one |
| Lexing.Lexer.CurrentChar | src/lexer.rs:30-32 | the character at the cursor, if any |
| Lexing.Lexer.PeekChar | src/lexer.rs:34-36 | the character after the cursor, if any |
| Lexing.Lexer.LexSingleChar | src/lexer.rs:38-42 | the token has the given kind and the old position; the cursor moves one column |
| Lexing.Lexer.LexDoubleChar | src/lexer.rs:44-49 | the token has the given kind and the old position; the cursor moves two columns |
| Lexing.Lexer.LexOperator | src/lexer.rs:63-194 | the token has the kind `Operator` gives for the character and its lookahead, and the position of its first character; the cursor moves by that operator's width |
| Lexing.Lexer.LexNumber | src/lexer.rs:196-249 | the result and the new cursor are those of `LexNumeral`: the maximal numeral; an `Integer` with its decimal value, which fails above the 64-bit `usize` maximum; or a `Float` with its lexeme, which fails with two `.`s; in each case the token carries its first digit's position |
| Lexing.Lexer.LexString | src/lexer.rs:250-273 | the result is that of `LexStringAt`: the text strictly between the quotes, verbatim, at the position after the closing quote, or failure when the input ends first; line and column are tracked across newlines |
| Lexing.Lexer.LexWord | src/lexer.rs:274-291 | the result and the new cursor are those of `LexWordAt`: the maximal word, classified by `MatchKeyword`, at the position of its first letter |
| Lexing.Lexer.SkipBlanks | src/lexer.rs:292-301 | the cursor ends where `SkipSpace` puts it, with the line and column it computes |
| Lexing.Lexer.Next | src/lexer.rs:55-312 | the result is `Step`'s token, end of input or failure, and on success the cursor is where `Step` leaves it |
| Lexing.Tokenize | src/main.rs:29 | calling `Next` until it yields nothing gives exactly `Lex(input)`, or `None` if a call fails |
| Grammar.ExpectPeek | src/parser.rs:84-101 | succeeds exactly when the peek token exists and has the kind, and then moves exactly one token |
| Grammar.IdentChain | src/parser.rs:216-258 | the scanned list only grows, and keeps its first element and its all-identifier shape; starting on an identifier, the scan stops on an identifier or just after one |
| Grammar.ParseIdentLiterals | src/parser.rs:206-259 | the scanned list holds only identifiers, and starts with the current token when that is an identifier; the stop position is on or just after an identifier |
| Grammar.IdentPath | src/parser.rs:181-201 | the path only grows and keeps its all-identifier shape |
| Grammar.ParseIdentLiteral | src/parser.rs:173-204 | the result is a `NormalIdentifier`, and the cursor never moves back |
| Grammar.ParseStatement | src/parser.rs:335-347 | a statement is found only when a token is left, and with no token left the result is nothing at the same cursor; the cursor never moves back |
| Grammar.ParseImportStatement | src/parser.rs:349-358 | succeeds exactly when a next token exists, and imports that token whatever its kind |
| Grammar.ParseExpressionStatement | src/parser.rs:360-374 | on success the result is `None` exactly when the current token has no prefix rule; otherwise it is an `ExpressionStatement` |
| Grammar.ParseIdentifierStatement | src/parser.rs:376-433 | on success there is always a statement; the cursor never ends before the start |
| Grammar.Assignment | src/parser.rs:386-427 | succeeds exactly when an expression follows the operator; then there is always a statement, and the cursor is not before the operator |
| Grammar.ParseReturnStatement | src/parser.rs:435-441 | on success the result is a `ReturnStatement` |
| Grammar.ParseBlockStatement | src/parser.rs:443-462 | on success the result is a block carrying the opener token, and the cursor is on an end-kind token after the opener |
| Grammar.BlockStatements | src/parser.rs:448-459 | the loop ends on an end-kind token with a block carrying the opener, whose statements only grew |
| Grammar.ParseExpression | src/parser.rs:466-506 | on success the result is `None` exactly when the current token has no prefix rule, and then nothing is consumed |
| Grammar.ParsePrefix | src/parser.rs:508-533 | the prefix rule never moves the cursor back |
| Grammar.InfixLoop | src/parser.rs:481-503 | the loop stops only where the peek token does not bind tighter than `prec`, or where it has no infix rule |
| Grammar.ParseInfix | src/parser.rs:535-591 | the infix rule never moves the cursor back |
| Grammar.ParseInfixExpression | src/parser.rs:595-605 | on success the result is an infix node with the operator token and the given left operand |
| Grammar.ParseGroupedExpression | src/parser.rs:607-634 | on success the cursor is on a `)` or past the last token |
| Grammar.ParseCallExpression | src/parser.rs:636-651 | on success the result is a call with the `(` token and the given callee |
| Grammar.ParseArrayLiteral | src/parser.rs:323-331 | on success the result is an array literal with the `[` token |
| Grammar.ParseExpressionList | src/parser.rs:653-679 | the list is empty, one token later, exactly when the terminator follows the opener at once (both directions); any result ends on the terminator or past the last token |
| Grammar.ListRest | src/parser.rs:665-676 | the loop ends on the terminator or past the last token, and the list only grows |
| Grammar.ParseFunctionExpression | src/parser.rs:261-321 | on success the result is a function literal carrying the `\|` and the scanned parameters as a definition list; success needs the scanned chain to be followed by `\|` when it is nonempty, then `->`, then a token |
| Grammar.FunctionBody | src/parser.rs:284-320 | on success the result is a function literal carrying the given `\|` token and the given parameters as a definition list |
| Grammar.ParseMatchExpression | src/parser.rs:681-691 | on success the result is a match node with the `match` token |
| Grammar.MatchClauses | src/parser.rs:693-809 | on success the peek token is `}`, and the node carries the `match` token; the pairs only grow |
| Grammar.MatchClause | src/parser.rs:694-802 | a clause always consumes at least one token |
| Grammar.MorePredicates | src/parser.rs:744-762 | the predicate list only grows |
| Grammar.SkipComma | src/parser.rs:797-802 | the cursor moves past the peek token, two tokens, exactly when that token is a comma; otherwise it stays |
| Grammar.ClauseBody | src/parser.rs:766-789 | on success the body is a block |
| Grammar.ProgramStatements | src/parser.rs:133-142 | the statement list only grows |
| Parsing.Parser.constructor | src/parser.rs:59-64 | the parser holds the tokens with the cursor on the first one |
| Parsing.Parser.ConsumeToken | src/parser.rs:66-68 | the cursor moves one token |
| Parsing.Parser.ExpectPeek | src/parser.rs:84-101 | agrees with `Grammar.ExpectPeek`: true and one token further exactly when the peek token has the kind |
| Parsing.Parser.ParseProgram | src/parser.rs:128-145 | the program and final cursor are those of `ParseProgramFrom`, with the loop guard on copies taken before the loop |
| Parsing.Parser.ParseIdentLiteral | src/parser.rs:173-204 | follows `Grammar.ParseIdentLiteral` (value, final cursor, failure) |
| Parsing.Parser.ParseIdentLiterals | src/parser.rs:206-259 | follows `Grammar.ParseIdentLiterals` |
| Parsing.Parser.ParseFunctionExpression | src/parser.rs:261-282 | follows `Grammar.ParseFunctionExpression` |
| Parsing.Parser.ParseFunctionBody | src/parser.rs:284-320 | follows `Grammar.FunctionBody` |
| Parsing.Parser.ParseArrayLiteral | src/parser.rs:323-331 | follows `Grammar.ParseArrayLiteral` |
| Parsing.Parser.ParseStatement | src/parser.rs:335-347 | follows `Grammar.ParseStatement` |
| Parsing.Parser.ParseImportStatement | src/parser.rs:349-358 | follows `Grammar.ParseImportStatement` |
| Parsing.Parser.ParseExpressionStatement | src/parser.rs:360-374 | follows `Grammar.ParseExpressionStatement` |
| Parsing.Parser.ParseIdentifierStatement | src/parser.rs:376-433 | follows `Grammar.ParseIdentifierStatement`, including the one-token step back, which never goes below zero |
| Parsing.Parser.ParseAssignment | src/parser.rs:386-427 | follows `Grammar.Assignment` |
| Parsing.Parser.ParseReturnStatement | src/parser.rs:435-441 | follows `Grammar.ParseReturnStatement` |
| Parsing.Parser.ParseBlockStatement | src/parser.rs:443-462 | follows `Grammar.ParseBlockStatement` |
| Parsing.Parser.ParseExpression | src/parser.rs:466-506 | follows `Grammar.ParseExpression`, with `prefix_exp` reassigned in the loop |
| Parsing.Parser.Prefix | src/parser.rs:508-533 | follows `Grammar.ParsePrefix` (`prefix_fn` with `execute` true) |
| Parsing.Parser.Infix | src/parser.rs:535-591 | follows `Grammar.ParseInfix` (`infix_fn` with `execute` true) |
| Parsing.Parser.ParseInfixExpression | src/parser.rs:595-605 | follows `Grammar.ParseInfixExpression` |
| Parsing.Parser.ParseGroupedExpression | src/parser.rs:607-634 | follows `Grammar.ParseGroupedExpression` |
| Parsing.Parser.ParseCallExpression | src/parser.rs:636-651 | follows `Grammar.ParseCallExpression` |
| Parsing.Parser.ParseExpressionList | src/parser.rs:653-663 | follows `Grammar.ParseExpressionList` |
| Parsing.Parser.ParseListRest | src/parser.rs:665-676 | follows `Grammar.ListRest` |
| Parsing.Parser.ParseMatchExpression | src/parser.rs:681-691 | follows `Grammar.ParseMatchExpression` |
| Parsing.Parser.ParseMatchClauses | src/parser.rs:693-803 | follows `Grammar.MatchClauses` |
| Parsing.Parser.ParseMatchClause | src/parser.rs:694-795 | follows `Grammar.MatchClause` |
| Parsing.Parser.ParseMorePredicates | src/parser.rs:744-762 | follows `Grammar.MorePredicates` |
| Parsing.Parser.ParseClauseBody | src/parser.rs:766-789 | follows `Grammar.ClauseBody` |
| WellFormed.ShorthandWf | src/parser.rs:776-787 | a shorthand body is a block, and it is well formed exactly when its expression is |
| WellFormed.ParseIdentLiteralWf | src/parser.rs:173-204 | an identifier expression scanned at an identifier, or reusing a nonempty scanned list, is a nonempty list of identifier tokens |
| WellFormed.ParseStatementWf | src/parser.rs:335-347 | every statement parsed is well formed |
| WellFormed.ParseExpressionStatementWf | src/parser.rs:360-374 | every expression statement parsed is well formed |
| WellFormed.ParseIdentifierStatementWf | src/parser.rs:376-433 | definitions start at `:=` and define a nonempty identifier list; updates start at `=` and name a nonempty path; a reparsed statement is well formed |
| WellFormed.AssignmentWf | src/parser.rs:386-427 | the assignment arm builds a well-formed definition or update from a scanned nonempty identifier list |
| WellFormed.ParseReturnStatementWf | src/parser.rs:435-441 | a return's value is well formed |
| WellFormed.ParseBlockStatementWf | src/parser.rs:443-462 | every statement of a parsed block is well formed |
| WellFormed.BlockStatementsWf | src/parser.rs:448-459 | the block loop keeps every collected statement well formed |
| WellFormed.ParseExpressionWf | src/parser.rs:466-506 | every expression parsed is well formed |
| WellFormed.ParsePrefixWf | src/parser.rs:508-533 | every prefix rule builds a well-formed node; literal nodes carry a token of their kind |
| WellFormed.InfixLoopWf | src/parser.rs:481-503 | the infix loop turns a well-formed left operand into a well-formed expression |
| WellFormed.ParseInfixWf | src/parser.rs:535-591 | every infix rule whose token has a precedence above `LOWEST`, the only ones the loop reaches, turns a well-formed left operand into a well-formed node |
| WellFormed.ParseInfixExpressionWf | src/parser.rs:595-605 | the right operand is well formed |
| WellFormed.ParseGroupedExpressionWf | src/parser.rs:607-634 | the inner expression is well formed |
| WellFormed.ParseCallExpressionWf | src/parser.rs:636-651 | a call carries `(` and well-formed arguments and callee |
| WellFormed.ParseArrayLiteralWf | src/parser.rs:323-331 | an array literal carries `[` and well-formed elements |
| WellFormed.ParseExpressionListWf | src/parser.rs:653-679 | every listed expression is well formed |
| WellFormed.ListRestWf | src/parser.rs:665-676 | the list loop keeps every collected expression well formed |
| WellFormed.ParseFunctionExpressionWf | src/parser.rs:261-321 | a function literal carries `\|`, a definition list of identifier parameters and a well-formed block body |
| WellFormed.FunctionBodyWf | src/parser.rs:284-320 | both body forms are well-formed blocks |
| WellFormed.ParseMatchExpressionWf | src/parser.rs:681-691 | a match node carries `match`, and its default and pairs are well formed |
| WellFormed.MatchClausesWf | src/parser.rs:693-809 | the clause loop keeps the default and every pair well formed |
| WellFormed.MatchClauseWf | src/parser.rs:694-802 | a default clause's body is a well-formed block; a pair has nonempty, well-formed predicates and a well-formed block body |
| WellFormed.PairClauseWf | src/parser.rs:737-795 | a clause whose first predicate is not `_` is a pair with nonempty, well-formed predicates and a well-formed block body |
| WellFormed.MorePredicatesWf | src/parser.rs:744-762 | the predicate loop keeps every predicate well formed |
| WellFormed.ClauseBodyWf | src/parser.rs:766-789 | both clause-body forms are well-formed blocks |
| WellFormed.ProgramStatementsWf | src/parser.rs:133-142 | the program loop keeps every collected statement well formed |
| WellFormed.ParseWf | src/parser.rs:128-145 | every program the parser returns consists of well-formed statements |
| ParseLaws.PrecedenceTable | src/parser.rs:31-50 | `from_tok` always answers, and exactly the fifteen listed kinds get a precedence above `LOWEST` |
| ParseLaws.BinaryOperators | src/parser.rs:535-591 | exactly `+ - / * != < > <= >= \|\| &&` build infix nodes; `==` and the compound assignments never do |
| ParseLaws.UnreachableInfixRules | src/parser.rs:553-568 | the loop stops before `+=`, `*=`, `/=` and `==` at every precedence |
| ParseLaws.LiteralOperand | src/parser.rs:515-522 | a literal becomes its leaf node, and the infix loop starts at the same cursor |
| ParseLaws.NameOperand | src/parser.rs:173-204 | an identifier not followed by `.` is a one-identifier path |
| ParseLaws.ScannedOperand | src/parser.rs:175-178 | a path scanned before is used as it is, and nothing is consumed |
| ParseLaws.GroupedOperand | src/parser.rs:607-634 | `( e )` is `e` itself, with the loop resuming at `)` |
| ParseLaws.BinaryInfix | src/parser.rs:595-605 | an operator builds `Infix(op, left, right)` with the right operand parsed at the operator's own precedence |
| ParseLaws.CallInfix | src/parser.rs:636-651 | `(` calls the expression so far with the argument list |
| ParseLaws.MatchInfix | src/parser.rs:681-691 | `match {` runs the clause loop; the scrutinee is dropped |
| ParseLaws.ChainLayout | src/parser.rs:216-258 | the chain appends exactly the identifiers at `pos + 2`, `pos + 4`, ..., and each one follows a `.` or a `,` |
| ParseLaws.ChainStop | src/parser.rs:216-258 | the chain stops one token after its last identifier when a token follows it, which is then neither `.` nor `,`; the kind is set by the last separator |
| ParseLaws.ListSkip | src/parser.rs:665-672 | a token without a prefix rule, such as a comma, is skipped |
| ParseLaws.DefinitionStatement | src/parser.rs:376-427 | `:=` after the chain defines exactly the scanned identifiers |
| ParseLaws.UpdateStatementAt | src/parser.rs:376-427 | `=` after the chain updates exactly the scanned path |
| ParseLaws.ReparsedStatement | src/parser.rs:379-397 | any other token: step back and parse an expression statement that reuses the scanned identifiers |
| ParseLaws.SingleNameStatement | src/parser.rs:376-397 | a lone identifier statement is the expression statement at that identifier |
| ParseLaws.ExpressionStatementAt | src/parser.rs:338-342 | a statement starting with any token other than `import`, an identifier or `return` is an expression statement |
| ParseLaws.ReturnStatementAt | src/parser.rs:435-441 | `return e` is a return of `e` |
| ParseLaws.NoStatementAt | src/parser.rs:335-374 | no statement starts at a token without a prefix rule that is not `import`, an identifier or `return`; nothing is consumed |
| ParseLaws.OneStatement | src/parser.rs:128-145 | a one-statement program: the statement is kept, and the loop stops at the next `None` |
| ParseLaws.OneParameter | src/parser.rs:261-282 | `\| x \| ->` leads to the body after `->` with parameter list `[x]` |
| ParseLaws.NoParameters | src/parser.rs:261-282 | `\| \| ->` is accepted with an empty parameter list |
| ParseLaws.DefaultClauseAt | src/parser.rs:698-719 | `_ -> e` is a default clause whose block returns `e` |
| ParseLaws.PredicatesLayout | src/parser.rs:744-762 | the predicate loop keeps the predicates it started with and, on success, stops where the peek token is not `,` |
| ParseLaws.ClauseShape | src/parser.rs:694-795 | a clause starts with a predicate expression and is the default exactly when that predicate is `_`; a pair holds that predicate and those read after it, and the body after the next `->` |
| ParseLaws.PairClauseAt | src/parser.rs:737-795 | `p, ... -> e` after a first predicate other than `_` is a pair of the predicates read, with a block returning `e` |
| ParseLaws.MatchClausesCollect | src/parser.rs:693-809 | the clause loop fails exactly when reading the clauses fails; otherwise its default is the last `_` clause's body and its pairs are the other clauses, in source order |
| ParseExamples.LastLiteral | src/parser.rs:481-485 | a literal after which nothing binds tighter is the whole operand |
| ParseExamples.OneOperation | src/parser.rs:595-605 | `a op b` with a literal `b` gives one infix node |
| ParseExamples.ProductBindsTighter | src/parser.rs:466-506 | `2 + 2 * 3` parses as `2 + (2 * 3)` |
| ParseExamples.EqualPrecedenceGroupsLeft | src/parser.rs:466-506 | `2 - 3 - 4` parses as `(2 - 3) - 4` |
| ParseExamples.GroupingOverridesPrecedence | src/parser.rs:607-634 | `(2 + 2) * 3` parses as `(2 + 2) * 3` |
| ParseExamples.DoubleEqualEndsTheProgram | src/parser.rs:31-50 | `2 == 3` yields the program holding only the statement `2` |
| ParseExamples.DestructuringDefinition | src/parser.rs:376-427 | `x, z := 3 + 2` defines exactly `[x, z]` as `3 + 2` |
| ParseExamples.PathUpdate | src/parser.rs:376-427 | `m.e = "3"` updates the path `[m, e]` with the string |
| ParseExamples.MissingDefinitionValueFails | src/parser.rs:424-427 | `x :=` with nothing after it fails |
| ParseExamples.ImportTakesAnyToken | src/parser.rs:349-358 | `import` takes the next token, whatever its kind |
| ParseExamples.CallArguments | src/parser.rs:636-679 | `f(1, 2, 3)` is a call with three arguments in order |
| ParseExamples.UnclosedCallAccepted | src/parser.rs:665-676 | `f(1` without `)` is accepted |
| ParseExamples.ShorthandFunction | src/parser.rs:296-314 | `\|x\| -> x + 1` has a block body returning `x + 1` |
| ParseExamples.BlockFunction | src/parser.rs:287-294 | `\|x\| -> { return x + 1 }` has the same shape of body |
| ParseExamples.LaterDefaultWins | src/parser.rs:681-810 | `x match { _ -> 1, _ -> 2 }` keeps only the default `2`, no pairs and not `x` |
| ParseExamples.PairClauseTwoPredicates | src/parser.rs:737-795 | `x match { 1, 2 -> 3 }` is one pair `[1, 2]` with a block returning `3`, and no default |
| ParseExamples.AdjacentNames | src/parser.rs:379-397 | `x y` is the statement `x`, carrying the token `y` |
| ParseExamples.AdjacentNamesDefinition | src/parser.rs:379-427 | `x y := 1` defines only `[x]` |
| ParseExamples.AdjacentNamesSum | src/parser.rs:379-397 | `x y + 1` parses as `x + 1` |
| Frontend.TrimStart | src/main.rs:29 | the leading run of characters with the Unicode White_Space property |
| Frontend.TrimEnd | src/main.rs:29 | the trailing run of such characters |
| Frontend.Trim | src/main.rs:29 | the result is a contiguous part of the line that neither starts nor ends with whitespace, and everything outside it is whitespace |
| Frontend.TrimIdempotent | src/main.rs:26-29 | trimming a trimmed line changes nothing |
| Frontend.Compile | src/main.rs:26-30 | a compiled program is the parse of the tokens of the trimmed line, and all its statements are well formed |
| Frontend.Run | src/main.rs:26-30 | trimming, then running the lexer and parser objects, gives exactly `Compile(input)` |

## Left out

- `src/main.rs`: the REPL loop, reading stdin, printing, the `exit` command and argument
  handling are I/O. Only "trim, tokenize everything, then parse" is kept, in `Frontend`.
- `src/errors.rs`: the coloured message and `exit(1)` are process control. They are the
  failure outcomes `LexFailure`, `Fail`, `Aborted` and `None`, without message text.
- `src/lib.rs` is module wiring and a trivial test.
- `src/ast.rs`: `src/parser.rs:4-5` imports its types, but the model's datatypes follow
  what `src/parser.rs` builds rather than the declarations of `src/ast.rs`:
  - `MapLiteral`, `IfExpression`, `PrefixExpression`, `IndexExpression` and
    `BooleanLiteral` are never built;
  - the fields `parameters`, `function`, `predicate` and `value` (of an import) are named
    `arguments`, `callee`, `predicates` and `name`.
- The `Display` impls of `src/token.rs` and their colours.
- The `f32` value of a float is not modelled. `Float` carries its lexeme. Parsing a lexeme
  that holds one `.` always succeeds; a second `.`, as in `1.2.3`, makes the parse fail.
- `usize` is taken as 64 bits for `Integer` values. Positions and cursors are unbounded
  naturals. The parser's one-token step back is proved never to go below zero.
- Input is taken as ASCII. The source counts characters but slices bytes.
- Message wording and the positions shown in diagnostics are not modelled. For example,
  the illegal-character message unwraps the peek character. It panics at the end of the
  input, so that is a failure too.
- `prefix_fn` and `infix_fn` with `execute` false are the predicates `HasPrefix` and
  `HasInfix`. The duplicate `Minus` arm of `infix_fn` is unreachable.
- `get_current_precedence` is inlined into `ParseInfixExpression`. `peek_is` is
  `Grammar.PeekIs`. The `parse_*_literal` helpers are folded into `ParsePrefix`.
- The whitespace recursion of `next` is the loop of `Lexer.SkipBlanks`.
- Lexing.Lexer.Next: the final cursor after a failure is not stated, because the source
  exits the process there.
- Lexing.Lexer.LexString: the final cursor after a failure is not stated, for the same
  reason.
- Grammar.ParsePrefix: its own contract only states that the cursor never moves back. What
  each prefix rule builds is stated by the ParseLaws operand lemmas and by
  `WellFormed.ParsePrefixWf`.
- Grammar.ParseInfix: the same holds; see `ParseLaws.BinaryInfix`, `ParseLaws.CallInfix`,
  `ParseLaws.MatchInfix` and `WellFormed.ParseInfixWf`.
- Grammar.MatchClause: its own contract only states that a clause consumes a token. What a
  clause holds is stated by `ParseLaws.ClauseShape`.
