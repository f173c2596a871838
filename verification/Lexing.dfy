/** The tokens of a source text, as functions of the text that remains. */
module Lexing {
  import opened Wrappers

  datatype Kind =
    | Identifier(text: string)
    | StringLiteral(text: string)
    | IntegerLiteral(number: nat)
    | LongLiteral(number: nat)
    | DecimalLiteral(text: string)
    | BooleanLiteral(truth: bool)
    | Keyword(text: string)
    | Symbol(text: string)
    | Eof

  datatype Span = Span(sourceId: nat, start: nat, end: nat)

  datatype Token = Token(kind: Kind, span: Span, lexeme: string)

  datatype LexError =
    | UnterminatedComment | UnterminatedString | LongOutOfRange | IntegerOutOfRange
    | DoubleQuotes | UnexpectedCharacter(character: char)

  const MAX_I64: nat := 0x7fff_ffff_ffff_ffff
  const MAX_I128: nat := 0x7fff_ffff_ffff_ffff_ffff_ffff_ffff_ffff

  // ---------------------------------------------------------------- characters

  /** The Unicode property `White_Space`. */
  predicate IsWhitespace(ch: char) {
    || '\t' <= ch <= '\r' || ch == ' ' || ch == '\U{85}' || ch == '\U{A0}' || ch == '\U{1680}'
    || '\U{2000}' <= ch <= '\U{200A}' || ch == '\U{2028}' || ch == '\U{2029}' || ch == '\U{202F}'
    || ch == '\U{205F}' || ch == '\U{3000}'
  }

  predicate IsDigit(ch: char) {
    '0' <= ch <= '9'
  }

  predicate IsIdentifierStart(ch: char) {
    ch == '_' || 'a' <= ch <= 'z' || 'A' <= ch <= 'Z'
  }

  predicate IsIdentifierContinue(ch: char) {
    IsIdentifierStart(ch) || IsDigit(ch)
  }

  predicate At(r: string, i: nat, ch: char) {
    i < |r| && r[i] == ch
  }

  /** The number of leading characters with a property. */
  function Run(r: string, p: char -> bool): (n: nat)
    ensures n <= |r|
  {
    if r == "" || !p(r[0]) then 0 else 1 + Run(r[1..], p)
  }

  lemma {:induction false} RunProperty(r: string, p: char -> bool)
    ensures forall i :: 0 <= i < Run(r, p) ==> p(r[i])
    ensures Run(r, p) < |r| ==> !p(r[Run(r, p)])
  {
    if r != "" && p(r[0]) {
      RunProperty(r[1..], p);
      assert forall i :: 0 < i <= Run(r[1..], p) ==> r[i] == r[1..][i - 1];
    }
  }

  predicate IsNotNewline(ch: char) {
    ch != '\n'
  }

  // ---------------------------------------------------------------- trivia

  /** The length of a comment's text up to and including the closing marker. */
  function CommentLength(r: string): (n: Option<nat>)
    ensures n.Some? ==> 2 <= n.value <= |r|
  {
    if At(r, 0, '*') && At(r, 1, '/') then Some(2)
    else if r == "" then None
    else
      var rest := CommentLength(r[1..]);
      if rest.None? then None else Some(1 + rest.value)
  }

  function Longer(n: nat, r: Result<nat, LexError>): Result<nat, LexError> {
    if r.Ok? then Ok(n + r.value) else r
  }

  /** A stretch of whitespace and the comment after it, if there is one. */
  datatype Stretch = Last(length: nat) | Commented(length: nat) | Unterminated

  function NextStretch(r: string): (s: Stretch)
    ensures s.Last? ==> s.length <= |r|
    ensures s.Commented? ==> 0 < s.length <= |r|
  {
    var spaces := Run(r, IsWhitespace);
    var rest := r[spaces..];
    if At(rest, 0, '/') && At(rest, 1, '/') then
      LineIsNotEmpty(rest);
      Commented(spaces + Run(rest, IsNotNewline))
    else if At(rest, 0, '/') && At(rest, 1, '*') then
      var comment := CommentLength(rest[2..]);
      if comment.None? then Unterminated else Commented(spaces + 2 + comment.value)
    else Last(spaces)
  }

  /** The length of the whitespace and comments in front of the next token. */
  function TriviaLength(r: string): (n: Result<nat, LexError>)
    ensures n.Ok? ==> n.value <= |r|
    decreases |r|
  {
    match NextStretch(r)
    case Last(length) => Ok(length)
    case Unterminated => Err(UnterminatedComment)
    case Commented(length) => Longer(length, TriviaLength(r[length..]))
  }

  lemma LineIsNotEmpty(r: string)
    requires At(r, 0, '/')
    ensures Run(r, IsNotNewline) > 0
  {
  }

  // ---------------------------------------------------------------- tokens

  function Lower(ch: char): char {
    if 'A' <= ch <= 'Z' then (ch as int + 32) as char else ch
  }

  function Lowered(s: string): (r: string)
    ensures |r| == |s|
  {
    seq(|s|, i requires 0 <= i < |s| => Lower(s[i]))
  }

  const KEYWORDS: set<string> := {
    "null", "if", "else", "for", "while", "do", "switch", "when", "break", "continue", "return", "void",
    "try", "catch", "finally", "throw", "new", "instanceof", "class", "interface", "extends", "implements",
    "public", "private", "protected", "global", "static", "virtual", "abstract", "override", "final", "transient"}

  function WordKind(text: string): Kind {
    var word := Lowered(text);
    if word == "true" then BooleanLiteral(true)
    else if word == "false" then BooleanLiteral(false)
    else if word in KEYWORDS then Keyword(word)
    else Identifier(text)
  }

  function NumberValue(digits: string): nat
    requires forall i :: 0 <= i < |digits| ==> IsDigit(digits[i])
  {
    if digits == "" then 0
    else
      assert IsDigit(digits[|digits| - 1]);
      10 * NumberValue(digits[..|digits| - 1]) + (digits[|digits| - 1] as int - '0' as int)
  }

  function NumberToken(r: string): (t: Result<(Kind, nat), LexError>)
    requires r != "" && IsDigit(r[0])
    ensures t.Ok? ==> 0 < t.value.1 <= |r|
  {
    RunProperty(r, IsDigit);
    NumberAfter(r, Run(r, IsDigit))
  }

  /** The literal that starts with these `n` digits. */
  function NumberAfter(r: string, n: nat): (t: Result<(Kind, nat), LexError>)
    requires 0 < n <= |r| && forall i :: 0 <= i < n ==> IsDigit(r[i])
    ensures t.Ok? ==> 0 < t.value.1 <= |r|
  {
    if At(r, n, '.') && n + 1 < |r| && IsDigit(r[n + 1]) then
      var m := n + 1 + Run(r[n + 1..], IsDigit);
      Ok((DecimalLiteral(r[..m]), m))
    else if At(r, n, 'l') || At(r, n, 'L') then
      if NumberValue(r[..n]) <= MAX_I128 then Ok((LongLiteral(NumberValue(r[..n])), n + 1)) else Err(LongOutOfRange)
    else
      if NumberValue(r[..n]) <= MAX_I64 then Ok((IntegerLiteral(NumberValue(r[..n])), n)) else Err(IntegerOutOfRange)
  }

  function Unescaped(ch: char): string {
    match ch
    case 'n' => "\n"
    case 'r' => "\r"
    case 't' => "\t"
    case '\'' => "'"
    case '\\' => "\\"
    case _ => ['\\', ch]
  }

  /** A string literal after its opening quote: its value and its length with the closing quote. */
  function StringBody(r: string): (t: Result<(string, nat), LexError>)
    ensures t.Ok? ==> 0 < t.value.1 <= |r|
  {
    if r == "" || r[0] == '\n' || r[0] == '\r' then Err(UnterminatedString)
    else if r[0] == '\'' then Ok(("", 1))
    else if r[0] == '\\' then
      if |r| == 1 then Err(UnterminatedString)
      else
        var rest :- StringBody(r[2..]);
        Ok((Unescaped(r[1]) + rest.0, 2 + rest.1))
    else
      var rest :- StringBody(r[1..]);
      Ok(([r[0]] + rest.0, 1 + rest.1))
  }

  /** The length of the operator or bracket at the front, each as long as it can be; 0 if none. */
  function SymbolLength(r: string): (n: nat)
    requires r != ""
    ensures n <= |r|
  {
    match r[0]
    case '.' => 1
    case ',' => 1
    case ':' => 1
    case '~' => 1
    case '@' => 1
    case '(' => 1
    case ')' => 1
    case '{' => 1
    case '}' => 1
    case '[' => 1
    case ']' => 1
    case ';' => 1
    case '?' => if At(r, 1, '?') || At(r, 1, '.') then 2 else 1
    case '=' => if At(r, 1, '=') || At(r, 1, '>') then 2 else 1
    case '!' => if At(r, 1, '=') then 2 else 1
    case '<' => if At(r, 1, '<') then (if At(r, 2, '=') then 3 else 2) else if At(r, 1, '=') then 2 else 1
    case '>' =>
      if At(r, 1, '>') then
        if At(r, 2, '>') then (if At(r, 3, '=') then 4 else 3)
        else if At(r, 2, '=') then 3
        else 2
      else if At(r, 1, '=') then 2
      else 1
    case '+' => if At(r, 1, '+') || At(r, 1, '=') then 2 else 1
    case '-' => if At(r, 1, '-') || At(r, 1, '=') then 2 else 1
    case '*' => if At(r, 1, '=') then 2 else 1
    case '/' => if At(r, 1, '=') then 2 else 1
    case '%' => if At(r, 1, '=') then 2 else 1
    case '&' => if At(r, 1, '&') || At(r, 1, '=') then 2 else 1
    case '|' => if At(r, 1, '|') || At(r, 1, '=') then 2 else 1
    case '^' => if At(r, 1, '=') then 2 else 1
    case _ => 0
  }

  /** The token at the front of the remaining text: its kind and its length. */
  function FrontToken(r: string): (t: Result<(Kind, nat), LexError>)
    requires r != ""
    ensures t.Ok? ==> 0 < t.value.1 <= |r|
  {
    if SymbolLength(r) > 0 then Ok((Symbol(r[..SymbolLength(r)]), SymbolLength(r)))
    else if r[0] == '\'' then
      var body :- StringBody(r[1..]);
      Ok((StringLiteral(body.0), 1 + body.1))
    else if IsIdentifierStart(r[0]) then
      var n := 1 + Run(r[1..], IsIdentifierContinue);
      Ok((WordKind(r[..n]), n))
    else if IsDigit(r[0]) then NumberToken(r)
    else if r[0] == '"' then Err(DoubleQuotes)
    else Err(UnexpectedCharacter(r[0]))
  }

  /** All tokens from a position on. */
  function TokensFrom(source: string, sourceId: nat, cursor: nat): Result<seq<Token>, LexError>
    requires cursor <= |source|
    decreases |source| - cursor
  {
    var eof := Token(Eof, Span(sourceId, |source|, |source|), "");
    if cursor == |source| then Ok([eof])
    else
      var trivia :- TriviaLength(source[cursor..]);
      var start := cursor + trivia;
      if start == |source| then Ok([eof])
      else
        var front :- FrontToken(source[start..]);
        var end := start + front.1;
        var rest :- TokensFrom(source, sourceId, end);
        Ok([Token(front.0, Span(sourceId, start, end), source[start..end])] + rest)
  }

  function Tokens(source: string, sourceId: nat): Result<seq<Token>, LexError> {
    TokensFrom(source, sourceId, 0)
  }

  function Followed(tokens: seq<Token>, r: Result<seq<Token>, LexError>): Result<seq<Token>, LexError> {
    if r.Ok? then Ok(tokens + r.value) else r
  }

  lemma TokensEnd(source: string, sourceId: nat)
    ensures TokensFrom(source, sourceId, |source|) == Ok([Token(Eof, Span(sourceId, |source|, |source|), "")])
  {
  }

  lemma TokensUnfold(source: string, sourceId: nat, cursor: nat)
    requires cursor < |source|
    ensures var trivia := TriviaLength(source[cursor..]);
            TokensFrom(source, sourceId, cursor) ==
              if trivia.Err? then Err(trivia.error)
              else if cursor + trivia.value == |source| then Ok([Token(Eof, Span(sourceId, |source|, |source|), "")])
              else
                var start := cursor + trivia.value;
                var front := FrontToken(source[start..]);
                if front.Err? then Err(front.error)
                else
                  var end := start + front.value.1;
                  Followed([Token(front.value.0, Span(sourceId, start, end), source[start..end])], TokensFrom(source, sourceId, end))
  {
    hide TriviaLength, FrontToken;
  }
}
