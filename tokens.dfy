/** Token and position values shared by the tokenizer and the parser (src/token.rs). */
module Tokens {

  /** Where a token was found: a 1-based line, a column and the absolute character offset (`char` in the source, a reserved word here). */
  datatype Position = Position(line: nat, column: nat, offset: nat)

  /** The closed set of token kinds. `Float` keeps its lexeme (the digit string) instead of
      an `f32` value; `String` and `Ident` carry the slice of the source text they came from. */
  datatype TokenType =
    | RParen | LParen | RBrace | LBrace | RBracket | LBracket
    | Percent | Plus | Minus | Slash | Asterisk
    | Equal | DoubleEqual | Bang | BangEqual
    | LT | LTEq | GT | GTEq
    | Arrow | Underscore
    | Period | Semicolon | Ampersand | And | Bar | Or
    | PlusEqual | MinusEqual | SlashEqual | AsteriskEqual
    | Comma | Colon | ColonEqual
    | Integer(value: nat)
    | Float(lexeme: string)
    | String(text: string)
    | Ident(name: string)
    | Match | Import | Return

  datatype Token = Token(kind: TokenType, position: Position)

  /** The keywords of the language; every other word is an identifier. */
  const Keywords: set<string> := {"match", "import", "return"}

  /** Classifies a scanned word: one of the three keywords, or an identifier carrying the
      very same text. The comparison is plain, case-sensitive string equality. */
  function MatchKeyword(word: string): (kind: TokenType)
    ensures kind == Match <==> word == "match"
    ensures kind == Import <==> word == "import"
    ensures kind == Return <==> word == "return"
    ensures kind.Ident? <==> word !in Keywords
    ensures kind.Ident? ==> kind.name == word
    ensures kind in {Match, Import, Return} || kind.Ident?
  {
    match word
    case "match" => Match
    case "import" => Import
    case "return" => Return
    case _ => Ident(word)
  }

  /** `Token::new`: the token holds exactly the kind and position it is given. */
  function NewToken(kind: TokenType, position: Position): (t: Token)
    ensures t.kind == kind && t.position == position
  {
    Token(kind, position)
  }

  /** `Token::from_keyword`: a word token whose kind is the keyword classification of the
      word and whose position is the one given. */
  function FromKeyword(word: string, position: Position): (t: Token)
    ensures t.kind == MatchKeyword(word) && t.position == position
    ensures t.kind.Ident? ==> t.kind.name == word
  {
    NewToken(MatchKeyword(word), position)
  }

  /** `Position::new`: the position holds exactly the three counters it is given. */
  function NewPosition(line: nat, column: nat, offset: nat): (p: Position)
    ensures p.line == line && p.column == column && p.offset == offset
  {
    Position(line, column, offset)
  }

  /** Keyword lookup distinguishes case and does not match prefixes or extensions. */
  lemma KeywordsAreExact()
    ensures MatchKeyword("Match") == Ident("Match")
    ensures MatchKeyword("RETURN") == Ident("RETURN")
    ensures MatchKeyword("returns") == Ident("returns")
    ensures MatchKeyword("imp") == Ident("imp")
  {
  }
}
