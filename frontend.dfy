/** The front end as src/main.rs drives it on one line of input: collect every token the
    lexer yields, then parse the whole token vector. */
module Frontend {
  import opened Options
  import opened Tokens
  import opened Ast
  import opened Lexing
  import opened Grammar
  import opened WellFormed
  import opened Parsing

  /** The characters Rust's `str::trim` removes: those with the Unicode White_Space
      property. */
  predicate IsWhitespace(c: char) {
    var n := c as int;
    || (9 <= n <= 13) || n == 32 || n == 0x85 || n == 0xA0 || n == 0x1680
    || (0x2000 <= n <= 0x200A) || n == 0x2028 || n == 0x2029 || n == 0x202F || n == 0x205F
    || n == 0x3000
  }

  /** The length of the leading whitespace of `s`. */
  function TrimStart(s: string): (i: nat)
    ensures i <= |s|
    ensures forall k :: 0 <= k < i ==> IsWhitespace(s[k])
    ensures i < |s| ==> !IsWhitespace(s[i])
  {
    if |s| == 0 || !IsWhitespace(s[0]) then 0 else 1 + TrimStart(s[1..])
  }

  /** The length of `s` without its trailing whitespace. */
  function TrimEnd(s: string): (j: nat)
    ensures j <= |s|
    ensures forall k :: j <= k < |s| ==> IsWhitespace(s[k])
    ensures j > 0 ==> !IsWhitespace(s[j - 1])
  {
    if |s| == 0 || !IsWhitespace(s[|s| - 1]) then |s| else TrimEnd(s[..|s| - 1])
  }

  /** `str::trim`: `s` without its leading and trailing whitespace. The result is a
      contiguous part of `s` that neither starts nor ends with whitespace, and everything
      of `s` outside it is whitespace. */
  function Trim(s: string): (r: string)
    ensures TrimStart(s) + |r| <= |s|
    ensures |r| > 0 ==> !IsWhitespace(r[0]) && !IsWhitespace(r[|r| - 1])
    ensures r == s[TrimStart(s)..TrimStart(s) + |r|]
    ensures forall k :: 0 <= k < |s| && !(TrimStart(s) <= k < TrimStart(s) + |r|) ==> IsWhitespace(s[k])
  {
    var i := TrimStart(s);
    if i == |s| then [] else s[i..TrimEnd(s)]
  }

  /** Trimming twice is trimming once. */
  lemma TrimIdempotent(s: string)
    ensures Trim(Trim(s)) == Trim(s)
  {
    var t := Trim(s);
    assert TrimStart(t) == 0;
    if |t| > 0 {
      assert TrimEnd(t) == |t|;
      assert t[0..|t|] == t;
    }
  }

  /** The program a line of input denotes, or `None` when the lexer or the parser stops
      with an error. As in the REPL, the line is trimmed before it is lexed. */
  function Compile(input: string): (r: Option<Program>)
    ensures r.Some? ==> Lex(Trim(input)).Some? && Parse(Lex(Trim(input)).value) == r
    ensures r.Some? ==> AllWfStmts(r.value.statements)
  {
    match Lex(Trim(input))
    case None => None
    case Some(ts) => ParseWf(ts); Parse(ts)
  }

  /** `Lexer::new(input.trim()).collect()` followed by `Parser::new(tokens).parse_program()`. */
  method Run(input: string) returns (r: Option<Program>)
    ensures r == Compile(input)
  {
    var line := Trim(input);
    var tokens := Tokenize(line);
    if tokens.None? {
      return None;
    }
    var parser := new Parser(tokens.value);
    var program := parser.ParseProgram();
    match program
    case Aborted => return None;
    case Done(p) => return Some(p);
  }
}
