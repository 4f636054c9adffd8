/** The tokenizer (src/lexer.rs): a cursor over the input characters that produces one
    position-tagged token per call of `Next`. The functions of this module are the
    specification; the class `Lexer` is the cursor-driven state machine, proved to follow it. */
module Lexing {
  import opened Options
  import opened Tokens

  /** The largest `usize` on a 64-bit target: a bigger integer numeral does not parse. */
  const UsizeMax: nat := 0xFFFF_FFFF_FFFF_FFFF

  /** The outcome of one call of `next`: a token, the end of the input, or a fatal error. */
  datatype Lexed = Emitted(token: Token) | Exhausted | LexFailure

  predicate IsDigit(c: char) { '0' <= c <= '9' }
  predicate IsLetter(c: char) { 'a' <= c <= 'z' || 'A' <= c <= 'Z' }
  predicate IsWordChar(c: char) { IsLetter(c) || c == '_' }
  /** Characters skipped with a plain column step; the newline is handled apart. */
  predicate IsBlank(c: char) { c == ' ' || c == '\t' || c == '\r' }
  predicate IsSpace(c: char) { IsBlank(c) || c == '\n' }

  /** `get_nth_char`: the character at an offset, if there is one. */
  function CharAt(input: string, i: nat): (r: Option<char>)
    ensures r.Some? <==> i < |input|
    ensures r.Some? ==> r.value == input[i]
  {
    if i < |input| then Some(input[i]) else None
  }

  /** `consume_char`: one column and one character further. */
  function Consume(p: Position): (q: Position)
    ensures q.line == p.line && q.column == p.column + 1 && q.offset == p.offset + 1
  {
    Position(p.line, p.column + 1, p.offset + 1)
  }

  /** A newline: `line += 1`, `column = 0`, then `consume_char`, so the character after it
      sits in column 1. */
  function ConsumeNewline(p: Position): (q: Position)
    ensures q.line == p.line + 1 && q.column == 1 && q.offset == p.offset + 1
  {
    Consume(Position(p.line + 1, 0, p.offset))
  }

  /** `k` calls of `consume_char` on one line. */
  function Advance(p: Position, k: nat): Position {
    Position(p.line, p.column + k, p.offset + k)
  }

  /** The number of newlines in `input[i..e]`. */
  function Newlines(input: string, i: nat, e: nat): nat
    requires i <= e <= |input|
    decreases e - i
  {
    if i == e then 0 else (if input[i] == '\n' then 1 else 0) + Newlines(input, i + 1, e)
  }

  predicate NoNewline(input: string, i: nat, e: nat)
    requires i <= e <= |input|
  {
    forall k :: i <= k < e ==> input[k] != '\n'
  }

  /** The offset of the last newline in `input[i..e]`, if there is one. */
  function LastNewline(input: string, i: nat, e: nat): (r: Option<nat>)
    requires i <= e <= |input|
    ensures r.Some? ==> i <= r.value < e && input[r.value] == '\n' && NoNewline(input, r.value + 1, e)
    ensures r.None? ==> NoNewline(input, i, e)
    decreases e - i
  {
    if i == e then None else if input[e - 1] == '\n' then Some(e - 1) else LastNewline(input, i, e - 1)
  }

  /** The last newline of `input[i..e]` is the last one after `i`, or else the one at `i`. */
  lemma {:induction false} LastNewlineFront(input: string, i: nat, e: nat)
    requires i < e <= |input|
    ensures LastNewline(input, i, e) ==
      if LastNewline(input, i + 1, e).Some? then LastNewline(input, i + 1, e)
      else if input[i] == '\n' then Some(i) else None
    decreases e - i
  {
    if e > i + 1 && input[e - 1] != '\n' {
      LastNewlineFront(input, i, e - 1);
    }
  }

  /** `q` is where a cursor at `p` lands after stepping over `input[p.offset..q.offset]`:
      one more line per newline; the column counts the characters since the last newline,
      after which the next character is in column 1, or goes on from `p`'s column when
      there is no newline. */
  predicate Walked(input: string, p: Position, q: Position)
    requires p.offset <= q.offset <= |input|
  {
    && q.line == p.line + Newlines(input, p.offset, q.offset)
    && q.column == match LastNewline(input, p.offset, q.offset)
                   case None => p.column + (q.offset - p.offset)
                   case Some(k) => q.offset - k
  }

  /** A walk that starts with one step, a newline or any other character, extends to the
      walk from the position after that step. */
  lemma WalkedStep(input: string, p: Position, q: Position)
    requires p.offset < |input|
    requires var p1 := if input[p.offset] == '\n' then ConsumeNewline(p) else Consume(p);
      p1.offset <= q.offset <= |input| && Walked(input, p1, q)
    ensures Walked(input, p, q)
  {
    LastNewlineFront(input, p.offset, q.offset);
  }

  /** Skips blanks and newlines from `p`, as the recursive calls of `next` do. */
  function SkipSpace(input: string, p: Position): (q: Position)
    requires p.offset <= |input|
    ensures p.offset <= q.offset <= |input|
    ensures forall k :: p.offset <= k < q.offset ==> IsSpace(input[k])
    ensures q.offset == |input| || !IsSpace(input[q.offset])
    ensures Walked(input, p, q)
    decreases |input| - p.offset
  {
    if p.offset == |input| then p
    else if input[p.offset] == '\n' then
      var q := SkipSpace(input, ConsumeNewline(p));
      WalkedStep(input, p, q);
      q
    else if IsBlank(input[p.offset]) then
      var q := SkipSpace(input, Consume(p));
      WalkedStep(input, p, q);
      q
    else p
  }

  /** Whether the numeral scan takes the character at `k`: a digit, or a `.` whose next
      character is a digit. */
  predicate NumeralGoesOn(input: string, k: nat) {
    k < |input| && (IsDigit(input[k]) || (input[k] == '.' && k + 1 < |input| && IsDigit(input[k + 1])))
  }

  /** The offset where the numeral scan starting at `i` stops. */
  function NumeralEnd(input: string, i: nat): (e: nat)
    requires i <= |input|
    ensures i <= e <= |input|
    ensures forall k :: i <= k < e ==> NumeralGoesOn(input, k)
    ensures !NumeralGoesOn(input, e)
    decreases |input| - i
  {
    if NumeralGoesOn(input, i) then NumeralEnd(input, i + 1) else i
  }

  /** The offset where the identifier scan starting at `i` stops: letters and `_` only. */
  function WordEnd(input: string, i: nat): (e: nat)
    requires i <= |input|
    ensures i <= e <= |input|
    ensures forall k :: i <= k < e ==> IsWordChar(input[k])
    ensures e == |input| || !IsWordChar(input[e])
    decreases |input| - i
  {
    if i < |input| && IsWordChar(input[i]) then WordEnd(input, i + 1) else i
  }

  /** The string scan from `p` (just after the opening quote): the offset of the closing
      quote and the position after it, or `None` if the input ends first. */
  function ScanString(input: string, p: Position): (r: Option<(nat, Position)>)
    requires p.offset <= |input|
    ensures r.Some? ==> p.offset <= r.value.0 < |input| && input[r.value.0] == '"'
    ensures r.Some? ==> r.value.1.offset == r.value.0 + 1
    ensures r.Some? ==> forall k :: p.offset <= k < r.value.0 ==> input[k] != '"'
    ensures r.None? ==> forall k :: p.offset <= k < |input| ==> input[k] != '"'
    ensures r.Some? ==> Walked(input, p, r.value.1)
    decreases |input| - p.offset
  {
    if p.offset == |input| then None
    else if input[p.offset] == '"' then
      WalkedStep(input, p, Consume(p));
      Some((p.offset, Consume(p)))
    else
      var r := ScanString(input, if input[p.offset] == '\n' then ConsumeNewline(p) else Consume(p));
      if r.Some? then WalkedStep(input, p, r.value.1); r else r
  }

  function DigitValue(c: char): nat {
    if IsDigit(c) then (c as int - '0' as int) else 0
  }

  /** The value of a decimal digit string. */
  function DecimalValue(digits: string): nat {
    if digits == [] then 0
    else 10 * DecimalValue(digits[..|digits| - 1]) + DigitValue(digits[|digits| - 1])
  }

  function PeriodCount(s: string): nat {
    if s == [] then 0 else PeriodCount(s[1..]) + (if s[0] == '.' then 1 else 0)
  }

  /** `str::parse::<usize>` on a digit string: fails exactly when the value overflows. */
  function ParseUsize(digits: string): Option<nat> {
    var v := DecimalValue(digits);
    if v <= UsizeMax then Some(v) else None
  }

  /** `str::parse::<f32>` on the lexeme of a numeral that holds a `.`: it parses unless
      the scan took a second `.` (as in `1.2.3`). The value itself is not modelled. */
  function ParseFloat(lexeme: string): Option<string> {
    if PeriodCount(lexeme) <= 1 then Some(lexeme) else None
  }

  /** The one- and two-character symbols and operators: the kind and width of the token
      that starts with `c` when `peek` follows, or `None` if `c` starts no such token.
      A lone `<` or `>` yields `Asterisk`, as the source has it. */
  function Operator(c: char, peek: Option<char>): Option<(TokenType, nat)> {
    match c
    case '(' => Some((LParen, 1))
    case ')' => Some((RParen, 1))
    case '[' => Some((LBracket, 1))
    case ']' => Some((RBracket, 1))
    case '{' => Some((LBrace, 1))
    case '}' => Some((RBrace, 1))
    case ',' => Some((Comma, 1))
    case '.' => Some((Period, 1))
    case '_' => Some((Underscore, 1))
    case '|' => Some((Bar, 1))
    case '!' => if peek == Some('=') then Some((BangEqual, 2)) else Some((Bang, 1))
    case '=' => if peek == Some('=') then Some((DoubleEqual, 2)) else Some((Equal, 1))
    case '&' => if peek == Some('&') then Some((And, 2)) else Some((Ampersand, 1))
    case '+' => if peek == Some('=') then Some((PlusEqual, 2)) else Some((Plus, 1))
    case '-' =>
      if peek == Some('=') then Some((MinusEqual, 2))
      else if peek == Some('>') then Some((Arrow, 2))
      else Some((Minus, 1))
    case '/' => if peek == Some('=') then Some((SlashEqual, 2)) else Some((Slash, 1))
    case '*' => if peek == Some('=') then Some((AsteriskEqual, 2)) else Some((Asterisk, 1))
    case '<' => if peek == Some('=') then Some((LTEq, 2)) else Some((Asterisk, 1))
    case '>' => if peek == Some('=') then Some((GTEq, 2)) else Some((Asterisk, 1))
    case ':' => if peek == Some('=') then Some((ColonEqual, 2)) else Some((Colon, 1))
    case _ => None
  }

  /** A two-character operator wins over its one-character prefix exactly for `!=`, `==`,
      `&&`, `+=`, `-=`, `->`, `/=`, `*=`, `<=`, `>=` and `:=`; a lone `<` or `>` is
      `Asterisk`, and `|` is always `Bar`. */
  lemma OperatorTable(c: char, peek: Option<char>)
    ensures Operator(c, peek).Some? ==> 1 <= Operator(c, peek).value.1 <= 2
    ensures (Operator(c, peek).Some? && Operator(c, peek).value.1 == 2) <==>
      peek.Some? && [c, peek.value] in {"!=", "==", "&&", "+=", "-=", "->", "/=", "*=", "<=", ">=", ":="}
    ensures (c == '<' || c == '>') && peek != Some('=') ==> Operator(c, peek) == Some((Asterisk, 1))
    ensures c == '|' ==> Operator(c, peek) == Some((Bar, 1))
  {
  }

  /** The numeral starting at `q`: an `Integer` with its decimal value or a `Float` with
      its lexeme, positioned at its first digit; the parse of either can fail. */
  function LexNumeral(input: string, q: Position): (Lexed, Position)
    requires q.offset <= |input|
  {
    var i := q.offset;
    var e := NumeralEnd(input, i);
    var lexeme := input[i..e];
    var after := Advance(q, e - i);
    if PeriodCount(lexeme) == 0 then
      match ParseUsize(lexeme)
      case Some(v) => (Emitted(Token(Integer(v), q)), after)
      case None => (LexFailure, after)
    else
      match ParseFloat(lexeme)
      case Some(f) => (Emitted(Token(Float(f), q)), after)
      case None => (LexFailure, after)
  }

  /** The string literal whose opening quote is at `q`: its text runs up to the next `"`,
      and the token carries the position after the closing quote. */
  function LexStringAt(input: string, q: Position): (r: (Lexed, Position))
    requires q.offset < |input| && input[q.offset] == '"'
    ensures r.0.LexFailure? <==> forall k :: q.offset < k < |input| ==> input[k] != '"'
    ensures r.0.Emitted? ==>
      && q.offset + 2 <= r.1.offset <= |input| && input[r.1.offset - 1] == '"'
      && r.0.token == Token(String(input[q.offset + 1..r.1.offset - 1]), r.1)
      && Walked(input, q, r.1)
    ensures r.0.Emitted? ==> forall k :: q.offset < k < r.1.offset - 1 ==> input[k] != '"'
  {
    var start := Consume(q);
    match ScanString(input, start)
    case Some((close, after)) =>
      WalkedStep(input, q, after);
      (Emitted(Token(String(input[start.offset..close]), after)), after)
    case None => (LexFailure, q)
  }

  /** The word starting at `q`, classified as a keyword or an identifier. */
  function LexWordAt(input: string, q: Position): (Lexed, Position)
    requires q.offset <= |input|
  {
    var e := WordEnd(input, q.offset);
    (Emitted(FromKeyword(input[q.offset..e], q)), Advance(q, e - q.offset))
  }

  /** The token that starts at `q`, which is the end of the input or a character that is not
      a blank or a newline, and the position after it. */
  function LexAt(input: string, q: Position): (Lexed, Position)
    requires q.offset <= |input|
  {
    var i := q.offset;
    if i == |input| then (Exhausted, q)
    else
      var c := input[i];
      match Operator(c, CharAt(input, i + 1))
      case Some((kind, width)) => (Emitted(Token(kind, q)), Advance(q, width))
      case None =>
        if IsDigit(c) then LexNumeral(input, q)
        else if c == '"' then LexStringAt(input, q)
        else if IsLetter(c) then LexWordAt(input, q)
        else (LexFailure, q)
  }

  /** One call of `next` from position `p`: skip blanks and newlines, then lex one token. */
  function Step(input: string, p: Position): (r: (Lexed, Position))
    requires p.offset <= |input|
    ensures r.1.offset <= |input|
    ensures r.0.Emitted? ==> p.offset < r.1.offset
    ensures r.0.Emitted? ==> p.offset <= r.0.token.position.offset <= r.1.offset
    ensures r.0.Exhausted? ==> r.1.offset == |input|
    ensures p.offset == |input| ==> r == (Exhausted, p)
  {
    LexAt(input, SkipSpace(input, p))
  }

  /** The first characters of the symbols and operators. */
  const Symbols: set<char> :=
    {'(', ')', '[', ']', '{', '}', ',', '.', '_', '|', '!', '=', '&', '+', '-', '/', '*', '<', '>', ':'}

  /** Whatever follows it, a character starts a symbol or an operator exactly when it is
      one of `Symbols`. */
  lemma SymbolStart(c: char, peek: Option<char>)
    ensures Operator(c, peek).Some? <==> c in Symbols
  {
  }

  /** The characters that start no token: not a digit, a letter, a quote, or the first
      character of a symbol or an operator. */
  predicate StartsNoToken(c: char) {
    !IsDigit(c) && !IsLetter(c) && c != '"' && c !in Symbols
  }

  /** A numeral that does not parse: an integer above the `usize` maximum, or a float
      with a second `.`. */
  predicate BadNumeral(lexeme: string) {
    (PeriodCount(lexeme) == 0 && DecimalValue(lexeme) > UsizeMax) || PeriodCount(lexeme) >= 2
  }

  /** `next` fails exactly when, after the blanks and newlines, the input holds a
      character that starts no token, a numeral that does not parse, or a `"` with no
      closing `"` after it. */
  lemma StepFailure(input: string, p: Position)
    requires p.offset <= |input|
    ensures var i := SkipSpace(input, p).offset;
      Step(input, p).0.LexFailure? <==>
        i < |input| &&
        (|| StartsNoToken(input[i])
         || (IsDigit(input[i]) && BadNumeral(input[i..NumeralEnd(input, i)]))
         || (input[i] == '"' && forall k :: i < k < |input| ==> input[k] != '"'))
  {
    var q := SkipSpace(input, p);
    var i := q.offset;
    if i < |input| {
      var c := input[i];
      SymbolStart(c, CharAt(input, i + 1));
      if IsDigit(c) {
        var e := NumeralEnd(input, i);
        assert LexAt(input, q) == LexNumeral(input, q);
      } else if c == '"' {
        assert LexAt(input, q) == LexStringAt(input, q);
      }
    }
  }

  /** The tokens produced by calling `next` from `p` until it returns nothing (`None` in
      the source), or `None` here when a call fails. */
  function LexFrom(input: string, p: Position): Option<seq<Token>>
    requires p.offset <= |input|
    decreases |input| - p.offset
  {
    var (out, next) := Step(input, p);
    match out
    case Exhausted => Some([])
    case LexFailure => None
    case Emitted(t) =>
      match LexFrom(input, next)
      case None => None
      case Some(rest) => Some([t] + rest)
  }

  /** The first position of a fresh lexer: line 1, column 0, offset 0. */
  const Start: Position := Position(1, 0, 0)

  /** The whole token sequence of an input, as `Lexer::new(input).collect()` gives it. */
  function Lex(input: string): Option<seq<Token>> {
    LexFrom(input, Start)
  }

  class Lexer {
    const input: string
    var position: Position

    ghost predicate Valid()
      reads this
    {
      position.offset <= |input|
    }

    constructor (input: string)
      ensures this.input == input && position == Start && Valid()
    {
      this.input := input;
      position := Position(1, 0, 0);
    }

    method ConsumeChar()
      requires position.offset < |input|
      modifies this
      ensures position == Consume(old(position)) && Valid()
    {
      position := Position(position.line, position.column + 1, position.offset + 1);
    }

    function CurrentChar(): (r: Option<char>)
      reads this
      ensures r == CharAt(input, position.offset)
    {
      if position.offset < |input| then Some(input[position.offset]) else None
    }

    function PeekChar(): (r: Option<char>)
      reads this
      ensures r == CharAt(input, position.offset + 1)
    {
      if position.offset + 1 < |input| then Some(input[position.offset + 1]) else None
    }

    method LexSingleChar(kind: TokenType) returns (t: Token)
      requires position.offset < |input|
      modifies this
      ensures t == Token(kind, old(position)) && position == Advance(old(position), 1)
      ensures Valid()
    {
      var at := position;
      ConsumeChar();
      t := Token(kind, at);
    }

    method LexDoubleChar(kind: TokenType) returns (t: Token)
      requires position.offset + 1 < |input|
      modifies this
      ensures t == Token(kind, old(position)) && position == Advance(old(position), 2)
      ensures Valid()
    {
      var at := position;
      ConsumeChar();
      ConsumeChar();
      t := Token(kind, at);
    }

    /** Lexes the symbol or operator at the cursor; the two-character form is chosen by
        one character of lookahead. */
    method LexOperator(c: char) returns (t: Token)
      requires position.offset < |input| && input[position.offset] == c
      requires Operator(c, PeekChar()).Some?
      modifies this
      ensures Valid()
      ensures t == Token(Operator(c, old(PeekChar())).value.0, old(position))
      ensures position == Advance(old(position), Operator(c, old(PeekChar())).value.1)
    {
      var peek := PeekChar();
      match c
      case '(' => t := LexSingleChar(LParen);
      case ')' => t := LexSingleChar(RParen);
      case '[' => t := LexSingleChar(LBracket);
      case ']' => t := LexSingleChar(RBracket);
      case '{' => t := LexSingleChar(LBrace);
      case '}' => t := LexSingleChar(RBrace);
      case ',' => t := LexSingleChar(Comma);
      case '.' => t := LexSingleChar(Period);
      case '_' => t := LexSingleChar(Underscore);
      case '|' => t := LexSingleChar(Bar);
      case '!' =>
        if peek == Some('=') { t := LexDoubleChar(BangEqual); } else { t := LexSingleChar(Bang); }
      case '=' =>
        if peek == Some('=') { t := LexDoubleChar(DoubleEqual); } else { t := LexSingleChar(Equal); }
      case '&' =>
        if peek == Some('&') { t := LexDoubleChar(And); } else { t := LexSingleChar(Ampersand); }
      case '+' =>
        if peek == Some('=') { t := LexDoubleChar(PlusEqual); } else { t := LexSingleChar(Plus); }
      case '-' =>
        if peek == Some('=') { t := LexDoubleChar(MinusEqual); }
        else if peek == Some('>') { t := LexDoubleChar(Arrow); }
        else { t := LexSingleChar(Minus); }
      case '/' =>
        if peek == Some('=') { t := LexDoubleChar(SlashEqual); } else { t := LexSingleChar(Slash); }
      case '*' =>
        if peek == Some('=') { t := LexDoubleChar(AsteriskEqual); } else { t := LexSingleChar(Asterisk); }
      case '<' =>
        if peek == Some('=') { t := LexDoubleChar(LTEq); } else { t := LexSingleChar(Asterisk); }
      case '>' =>
        if peek == Some('=') { t := LexDoubleChar(GTEq); } else { t := LexSingleChar(Asterisk); }
      case ':' =>
        if peek == Some('=') { t := LexDoubleChar(ColonEqual); } else { t := LexSingleChar(Colon); }
    }

    /** Lexes an integer or float numeral: the maximal run of digits, continued by a `.`
        only when a digit follows it. */
    method LexNumber() returns (r: Lexed)
      requires Valid() && position.offset < |input| && IsDigit(input[position.offset])
      modifies this
      ensures Valid()
      ensures (r, position) == LexNumeral(input, old(position))
    {
      var start := position;
      var num := "";
      var isFloat := false;
      while position.offset < |input|
        invariant Valid() && start.offset <= position.offset
        invariant position == Advance(start, position.offset - start.offset)
        invariant num == input[start.offset..position.offset]
        invariant NumeralEnd(input, position.offset) == NumeralEnd(input, start.offset)
        invariant isFloat <==> PeriodCount(num) > 0
        decreases |input| - position.offset
      {
        var ch := input[position.offset];
        if IsDigit(ch) {
          num := num + [ch];
          ConsumeChar();
        } else if ch == '.' && PeekChar().Some? && IsDigit(PeekChar().value) {
          isFloat := true;
          num := num + [ch];
          ConsumeChar();
        } else {
          assert !NumeralGoesOn(input, position.offset);
          break;
        }
        NumeralGrow(input, start.offset, position.offset - 1);
      }
      assert position.offset == NumeralEnd(input, start.offset);
      assert num == input[start.offset..NumeralEnd(input, start.offset)];
      if !isFloat {
        match ParseUsize(num)
        case Some(v) => r := Emitted(Token(Integer(v), start));
        case None => r := LexFailure;
      } else {
        match ParseFloat(num)
        case Some(f) => r := Emitted(Token(Float(f), start));
        case None => r := LexFailure;
      }
    }

    /** Lexes a string literal: its text is everything up to the next `"`, verbatim. */
    method LexString() returns (r: Lexed)
      requires Valid() && position.offset < |input| && input[position.offset] == '"'
      modifies this
      ensures Valid()
      ensures r == LexStringAt(input, old(position)).0
      ensures !r.LexFailure? ==> position == LexStringAt(input, old(position)).1
    {
      ConsumeChar();
      var start := position;
      var end: nat := 0;
      var closed := false;
      while position.offset < |input|
        invariant Valid() && start.offset <= position.offset
        invariant ScanString(input, position) == ScanString(input, start)
        decreases |input| - position.offset
      {
        var ch := input[position.offset];
        if ch == '"' {
          end := position.offset;
          assert ScanString(input, start) == Some((end, Consume(position)));
          ConsumeChar();
          closed := true;
          break;
        } else if ch == '\n' {
          assert ScanString(input, position) == ScanString(input, ConsumeNewline(position));
          position := Position(position.line + 1, 0, position.offset);
          ConsumeChar();
        } else {
          assert ScanString(input, position) == ScanString(input, Consume(position));
          ConsumeChar();
        }
      }
      if !closed {
        // `end` is still 0 and the text slice `start..end` panics
        assert ScanString(input, start) == None;
        r := LexFailure;
      } else {
        r := Emitted(Token(String(input[start.offset..end]), position));
        assert LexStringAt(input, old(position)) == (r, position);
      }
    }

    /** Lexes an identifier or keyword: the maximal run of letters and `_`. */
    method LexWord() returns (r: Lexed)
      requires Valid() && position.offset < |input| && IsLetter(input[position.offset])
      modifies this
      ensures Valid()
      ensures (r, position) == LexWordAt(input, old(position))
    {
      var start := position;
      while position.offset < |input| && IsWordChar(input[position.offset])
        invariant Valid() && start.offset <= position.offset
        invariant position == Advance(start, position.offset - start.offset)
        invariant WordEnd(input, position.offset) == WordEnd(input, start.offset)
        decreases |input| - position.offset
      {
        ConsumeChar();
      }
      assert position.offset == WordEnd(input, start.offset);
      var word := input[start.offset..position.offset];
      r := Emitted(FromKeyword(word, start));
      assert r == LexWordAt(input, start).0;
      assert position == LexWordAt(input, start).1;
    }

    /** The blank and newline arms of `next`, which consume the character and call `next`
        again, as a loop: a newline also moves the cursor to the next line. */
    method SkipBlanks()
      requires Valid()
      modifies this
      ensures Valid()
      ensures position == SkipSpace(input, old(position))
    {
      while position.offset < |input| && IsSpace(input[position.offset])
        invariant Valid()
        invariant SkipSpace(input, position) == SkipSpace(input, old(position))
        decreases |input| - position.offset
      {
        if input[position.offset] == '\n' {
          position := Position(position.line + 1, 0, position.offset);
        }
        ConsumeChar();
      }
    }

    /** `next`: skips blanks and newlines, then produces one token, `Exhausted` at the end
        of the input, or `LexFailure` for an illegal character or a bad numeral. */
    method Next() returns (r: Lexed)
      requires Valid()
      modifies this
      ensures Valid()
      ensures r == Step(input, old(position)).0
      ensures !r.LexFailure? ==> position == Step(input, old(position)).1
    {
      SkipBlanks();
      ghost var q := position;
      assert q == SkipSpace(input, old(position));
      assert Step(input, old(position)) == LexAt(input, q);
      var current := CurrentChar();
      if current.None? {
        return Exhausted;
      }
      var c := current.value;
      if Operator(c, PeekChar()).Some? {
        assert LexAt(input, q) == (Emitted(Token(Operator(c, PeekChar()).value.0, q)),
                                   Advance(q, Operator(c, PeekChar()).value.1));
        var t := LexOperator(c);
        r := Emitted(t);
      } else if IsDigit(c) {
        assert LexAt(input, q) == LexNumeral(input, q);
        r := LexNumber();
      } else if c == '"' {
        r := LexString();
        assert LexAt(input, q) == LexStringAt(input, q);
      } else if IsLetter(c) {
        assert LexAt(input, q) == LexWordAt(input, q);
        r := LexWord();
      } else {
        r := LexFailure;
      }
    }
  }

  function Prepend(ts: seq<Token>, rest: Option<seq<Token>>): Option<seq<Token>> {
    match rest
    case None => None
    case Some(us) => Some(ts + us)
  }

  /** One unfolding of `LexFrom`, in terms of the first step. */
  lemma LexFromStep(input: string, p: Position)
    requires p.offset <= |input|
    ensures Step(input, p).0.Exhausted? ==> LexFrom(input, p) == Some([])
    ensures Step(input, p).0.LexFailure? ==> LexFrom(input, p) == None
    ensures Step(input, p).0.Emitted? ==>
      LexFrom(input, p) == Prepend([Step(input, p).0.token], LexFrom(input, Step(input, p).1))
  {
  }

  /** Token positions never go backwards: each token sits at or after the previous one. A
      string token may share its offset with the token after it, because it carries the
      position after its closing quote. */
  predicate InOrder(ts: seq<Token>) {
    forall i, j :: 0 <= i < j < |ts| ==> ts[i].position.offset <= ts[j].position.offset
  }

  /** Every token lexed from `p` lies between `p` and the end of the input, in order. */
  lemma {:induction false} LexFromInOrder(input: string, p: Position)
    requires p.offset <= |input|
    ensures LexFrom(input, p).Some? ==> InOrder(LexFrom(input, p).value)
    ensures LexFrom(input, p).Some? ==>
      forall k :: 0 <= k < |LexFrom(input, p).value| ==>
        p.offset <= LexFrom(input, p).value[k].position.offset <= |input|
    decreases |input| - p.offset
  {
    var (out, next) := Step(input, p);
    if out.Emitted? && LexFrom(input, next).Some? {
      LexFromInOrder(input, next);
      var rest := LexFrom(input, next).value;
      var ts := [out.token] + rest;
      assert LexFrom(input, p) == Some(ts);
      forall k | 0 < k < |ts|
        ensures next.offset <= ts[k].position.offset <= |input|
      {
        assert ts[k] == rest[k - 1];
      }
    }
  }

  /** The tokens of a whole input lie within it, in order. */
  lemma LexInOrder(input: string)
    ensures Lex(input).Some? ==> InOrder(Lex(input).value)
    ensures Lex(input).Some? ==> forall k :: 0 <= k < |Lex(input).value| ==> Lex(input).value[k].position.offset <= |input|
  {
    LexFromInOrder(input, Start);
  }

  /** `Lexer::new(input).collect()`: calls `next` until it returns nothing. */
  method Tokenize(input: string) returns (r: Option<seq<Token>>)
    ensures r == Lex(input)
  {
    var lexer := new Lexer(input);
    var tokens: seq<Token> := [];
    match LexFrom(input, lexer.position) {
      case None =>
      case Some(us) => assert [] + us == us;
    }
    while true
      invariant lexer.input == input && lexer.Valid()
      invariant Lex(input) == Prepend(tokens, LexFrom(input, lexer.position))
      decreases |input| - lexer.position.offset
    {
      ghost var before := lexer.position;
      LexFromStep(input, before);
      var out := lexer.Next();
      match out
      case Exhausted =>
        assert tokens + [] == tokens;
        return Some(tokens);
      case LexFailure =>
        return None;
      case Emitted(t) =>
        CollectStep(input, tokens, before, t, lexer.position);
        tokens := tokens + [t];
    }
  }

  /** One round of `collect()`: an emitted token is appended, and the rest is lexed from
      the position after it. */
  lemma CollectStep(input: string, tokens: seq<Token>, before: Position, t: Token, after: Position)
    requires before.offset <= |input|
    requires Lex(input) == Prepend(tokens, LexFrom(input, before))
    requires Step(input, before) == (Emitted(t), after)
    ensures before.offset < after.offset <= |input|
    ensures Lex(input) == Prepend(tokens + [t], LexFrom(input, after))
  {
    LexFromStep(input, before);
    PrependTwice(tokens, t, LexFrom(input, after));
  }

  /** Putting `[t]` and then `tokens` in front is putting `tokens + [t]` in front. */
  lemma PrependTwice(tokens: seq<Token>, t: Token, rest: Option<seq<Token>>)
    ensures Prepend(tokens, Prepend([t], rest)) == Prepend(tokens + [t], rest)
  {
    if rest.Some? {
      assert tokens + ([t] + rest.value) == (tokens + [t]) + rest.value;
    }
  }

  /** One more character of a numeral: the scan's end is unchanged and the lexeme grows
      by that character. */
  lemma NumeralGrow(input: string, i: nat, k: nat)
    requires i <= k < |input| && NumeralGoesOn(input, k)
    ensures NumeralEnd(input, k + 1) == NumeralEnd(input, k)
    ensures input[i..k + 1] == input[i..k] + [input[k]]
    ensures PeriodCount(input[i..k + 1]) == PeriodCount(input[i..k]) + (if input[k] == '.' then 1 else 0)
  {
    assert input[i..k + 1] == input[i..k] + [input[k]];
    PeriodCountSnoc(input[i..k], input[k]);
  }

  lemma PeriodCountSnoc(s: string, c: char)
    ensures PeriodCount(s + [c]) == PeriodCount(s) + (if c == '.' then 1 else 0)
  {
    if s != [] {
      assert (s + [c])[1..] == s[1..] + [c];
      PeriodCountSnoc(s[1..], c);
    }
  }
}
