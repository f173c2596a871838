/** The lexer: a cursor moved over the source one character at a time. */
module Lexers {
  import opened Wrappers
  import opened Lexing

  class Lexer {
    const source: string
    const sourceId: nat
    var cursor: nat

    constructor (source: string, sourceId: nat)
      ensures this.source == source && this.sourceId == sourceId && cursor == 0
    {
      this.source, this.sourceId, cursor := source, sourceId, 0;
    }

    ghost predicate Valid()
      reads this
    {
      cursor <= |source|
    }

    function Remaining(): string
      requires Valid()
      reads this
    {
      source[cursor..]
    }

    function Peek(): Option<char>
      reads this
    {
      if cursor < |source| then Some(source[cursor]) else None
    }

    method Bump() returns (ch: Option<char>)
      requires Valid()
      modifies this`cursor
      ensures Valid() && ch == old(Peek()) && cursor == if ch.Some? then old(cursor) + 1 else old(cursor)
    {
      ch := Peek();
      if ch.Some? {
        cursor := cursor + 1;
      }
    }

    method Take(expected: char) returns (taken: bool)
      requires Valid()
      modifies this`cursor
      ensures Valid() && taken == At(old(Remaining()), 0, expected) && cursor == if taken then old(cursor) + 1 else old(cursor)
    {
      taken := Peek() == Some(expected);
      if taken {
        cursor := cursor + 1;
      }
    }

    /** Moves past the leading characters with a property. */
    method BumpWhile(p: char -> bool)
      requires Valid()
      modifies this`cursor
      ensures Valid() && cursor == old(cursor) + Run(old(Remaining()), p)
    {
      while cursor < |source| && p(source[cursor])
        invariant Valid() && old(cursor) <= cursor
        invariant old(cursor) + Run(old(Remaining()), p) == cursor + Run(Remaining(), p)
      {
        assert Remaining()[1..] == source[cursor + 1..];
        cursor := cursor + 1;
      }
    }

    method SkipTrivia() returns (r: Result<(), LexError>)
      requires Valid()
      modifies this`cursor
      ensures Valid() && cursor >= old(cursor)
      ensures match TriviaLength(old(Remaining()))
              case Ok(n) => r == Ok(()) && cursor == old(cursor) + n
              case Err(e) => r == Err(e)
    {
      hide TriviaLength, NextStretch;
      ghost var from := cursor;
      while true
        invariant Valid() && from <= cursor
        invariant TriviaLength(source[from..]) == Longer(cursor - from, TriviaLength(Remaining()))
        decreases |source| - cursor
      {
        ghost var here := cursor;
        TriviaUnfolds(Remaining());
        var stretch := SkipStretch();
        if stretch.Unterminated? {
          return Err(UnterminatedComment);
        } else if stretch.Last? {
          return Ok(());
        }
        assert Remaining() == source[here..][cursor - here..];
      }
    }

    /** Past whitespace and the comment after it, if there is one. */
    method SkipStretch() returns (s: Stretch)
      requires Valid()
      modifies this`cursor
      ensures Valid() && cursor >= old(cursor) && s == NextStretch(old(Remaining()))
      ensures !s.Unterminated? ==> cursor == old(cursor) + s.length
    {
      hide Run, CommentLength;
      var here := cursor;
      BumpWhile(IsWhitespace);
      var rest := Remaining();
      assert rest == source[here..][cursor - here..];
      if At(rest, 0, '/') && At(rest, 1, '/') {
        LineIsNotEmpty(rest);
        BumpWhile(IsNotNewline);
        return Commented(cursor - here);
      } else if At(rest, 0, '/') && At(rest, 1, '*') {
        var closed := SkipComment();
        return if closed then Commented(cursor - here) else Unterminated;
      }
      return Last(cursor - here);
    }

    /** Past a block comment. */
    method SkipComment() returns (closed: bool)
      requires Valid() && cursor + 2 <= |source|
      modifies this`cursor
      ensures Valid() && cursor > old(cursor)
      ensures var rest := old(Remaining());
              && closed == CommentLength(rest[2..]).Some?
              && (closed ==> cursor == old(cursor) + 2 + CommentLength(rest[2..]).value
                             && Remaining() == rest[2 + CommentLength(rest[2..]).value..])
    {
      ghost var rest := Remaining();
      cursor := cursor + 2;
      ghost var from := cursor;
      ghost var body := Remaining();
      assert body == rest[2..];
      while !(At(Remaining(), 0, '*') && At(Remaining(), 1, '/'))
        invariant Valid() && from <= cursor
        invariant CommentLength(Remaining()).None? <==> CommentLength(body).None?
        invariant CommentLength(body).Some? ==> CommentLength(body).value == cursor - from + CommentLength(Remaining()).value
        decreases |source| - cursor
      {
        if cursor == |source| {
          return false;
        }
        assert Remaining()[1..] == source[cursor + 1..];
        cursor := cursor + 1;
      }
      cursor := cursor + 2;
      closed := true;
    }

    method NextToken() returns (r: Result<Token, LexError>)
      requires Valid() && cursor < |source|
      modifies this`cursor
      ensures Valid()
      ensures match FrontToken(old(Remaining()))
              case Ok(t) =>
                && cursor == old(cursor) + t.1
                && r == Ok(Token(t.0, Span(sourceId, old(cursor), cursor), source[old(cursor)..cursor]))
              case Err(e) => r == Err(e)
    {
      var start := cursor;
      ghost var text := Remaining();
      var first := source[cursor];
      var symbol := SymbolToken();
      if symbol {
        assert source[start..cursor] == text[..cursor - start];
        return Ok(TokenOf(start, Symbol(source[start..cursor])));
      }
      cursor := cursor + 1;
      if first == '\'' {
        assert Remaining() == text[1..];
        var value := StringToken();
        if value.Err? {
          return Err(value.error);
        }
        return Ok(TokenOf(start, StringLiteral(value.value)));
      } else if IsIdentifierStart(first) {
        assert Remaining() == text[1..];
        BumpWhile(IsIdentifierContinue);
        assert source[start..cursor] == text[..cursor - start];
        return Ok(TokenOf(start, WordKind(source[start..cursor])));
      } else if IsDigit(first) {
        cursor := start;
        var kind := NumericToken();
        if kind.Err? {
          return Err(kind.error);
        }
        return Ok(TokenOf(start, kind.value));
      } else {
        return Err(if first == '"' then DoubleQuotes else UnexpectedCharacter(first));
      }
    }

    function TokenOf(start: nat, kind: Kind): Token
      requires Valid() && start <= cursor
      reads this
    {
      Token(kind, Span(sourceId, start, cursor), source[start..cursor])
    }

    /** Takes an operator or bracket, the longest there is; moves nothing if there is none. */
    method SymbolToken() returns (found: bool)
      requires Valid() && cursor < |source|
      modifies this`cursor
      ensures Valid() && cursor == old(cursor) + SymbolLength(old(Remaining())) && found == (cursor > old(cursor))
    {
      var ch := source[cursor];
      if ch in ".,:~@(){}[];?=!<>+-*/%&|^" {
        cursor := cursor + 1;
        match ch {
          case '?' => var _ := TakeEither('?', '.');
          case '=' => var _ := TakeEither('=', '>');
          case '+' => var _ := TakeEither('+', '=');
          case '-' => var _ := TakeEither('-', '=');
          case '&' => var _ := TakeEither('&', '=');
          case '|' => var _ := TakeEither('|', '=');
          case '!' => var _ := Take('=');
          case '*' => var _ := Take('=');
          case '/' => var _ := Take('=');
          case '%' => var _ := Take('=');
          case '^' => var _ := Take('=');
          case '<' =>
            var twice := Take('<');
            var _ := Take('=');
          case '>' => GreaterToken();
          case _ =>
        }
        found := true;
      } else {
        found := false;
      }
    }

    method TakeEither(a: char, b: char) returns (taken: bool)
      requires Valid()
      modifies this`cursor
      ensures Valid()
      ensures taken == (At(old(Remaining()), 0, a) || At(old(Remaining()), 0, b))
      ensures cursor == if taken then old(cursor) + 1 else old(cursor)
    {
      taken := Take(a);
      if !taken {
        taken := Take(b);
      }
    }

    /** After a first `>`. */
    method GreaterToken()
      requires Valid()
      modifies this`cursor
      ensures Valid()
      ensures var r := old(Remaining());
              cursor == old(cursor) +
                if At(r, 0, '>') then
                  if At(r, 1, '>') then (if At(r, 2, '=') then 3 else 2) else if At(r, 1, '=') then 2 else 1
                else if At(r, 0, '=') then 1
                else 0
    {
      var second := Take('>');
      if second {
        var third := Take('>');
        var _ := Take('=');
      } else {
        var _ := Take('=');
      }
    }

    /** After the opening quote. */
    method StringToken() returns (r: Result<string, LexError>)
      requires Valid()
      modifies this`cursor
      ensures Valid()
      ensures match StringBody(old(Remaining()))
              case Ok(t) => r == Ok(t.0) && cursor == old(cursor) + t.1
              case Err(e) => r == Err(e)
    {
      hide StringBody;
      var value := "";
      ghost var from := cursor;
      ghost var text := Remaining();
      JoinedNothing(StringBody(text));
      while true
        invariant Valid() && from <= cursor
        invariant StringBody(text) == Joined(value, cursor - from, StringBody(Remaining()))
        decreases |source| - cursor
      {
        ghost var here := Remaining();
        StringUnfolds(here);
        var ch := Bump();
        if ch.None? || ch.value == '\n' || ch.value == '\r' {
          return Err(UnterminatedString);
        }
        assert Remaining() == here[1..];
        if ch.value == '\'' {
          assert value + "" == value;
          return Ok(value);
        }
        var part := [ch.value];
        if ch.value == '\\' {
          var escaped := Bump();
          if escaped.None? {
            return Err(UnterminatedString);
          }
          assert Remaining() == here[2..];
          part := Unescaped(escaped.value);
        }
        JoinedTwice(value, cursor - from - (|here| - |Remaining()|), part, |here| - |Remaining()|, StringBody(Remaining()));
        value := value + part;
      }
    }

    /** An integer, Long or Decimal literal. */
    method NumericToken() returns (r: Result<Kind, LexError>)
      requires Valid() && cursor < |source| && IsDigit(source[cursor])
      modifies this`cursor
      ensures Valid() && old(cursor) <= cursor
      ensures match NumberToken(old(Remaining()))
              case Ok(t) => r == Ok(t.0) && cursor == old(cursor) + t.1
              case Err(e) => r == Err(e)
    {
      hide NumberValue, Run;
      RunProperty(Remaining(), IsDigit);
      var start := cursor;
      ghost var text := Remaining();
      BumpWhile(IsDigit);
      var n := cursor - start;
      var digits := source[start..cursor];
      assert digits == text[..n];
      if Peek() == Some('.') && cursor + 1 < |source| && IsDigit(source[cursor + 1]) {
        assert text[n] == source[cursor] && text[n + 1] == source[cursor + 1];
        cursor := cursor + 1;
        assert Remaining() == text[n + 1..];
        BumpWhile(IsDigit);
        assert source[start..cursor] == text[..cursor - start];
        return Ok(DecimalLiteral(source[start..cursor]));
      }
      assert Peek() == if n < |text| then Some(text[n]) else None;
      assert n + 1 < |text| ==> text[n + 1] == source[cursor + 1];
      if Peek() == Some('l') || Peek() == Some('L') {
        cursor := cursor + 1;
        return if NumberValue(digits) <= MAX_I128 then Ok(LongLiteral(NumberValue(digits))) else Err(LongOutOfRange);
      }
      return if NumberValue(digits) <= MAX_I64 then Ok(IntegerLiteral(NumberValue(digits))) else Err(IntegerOutOfRange);
    }

    /** All tokens, ending with the end-of-file token. */
    method Tokenize() returns (r: Result<seq<Token>, LexError>)
      requires cursor == 0
      modifies this`cursor
      ensures r == Tokens(source, sourceId)
    {
      hide TokensFrom, FrontToken, TriviaLength;
      var tokens: seq<Token> := [];
      FollowedByNothing(TokensFrom(source, sourceId, 0));
      while cursor < |source|
        invariant Valid()
        invariant TokensFrom(source, sourceId, 0) == Followed(tokens, TokensFrom(source, sourceId, cursor))
        decreases |source| - cursor
      {
        TokensUnfold(source, sourceId, cursor);
        var trivia := SkipTrivia();
        if trivia.Err? {
          return Err(trivia.error);
        }
        if cursor >= |source| {
          return Ok(tokens + [Token(Eof, Span(sourceId, |source|, |source|), "")]);
        }
        var token := NextToken();
        if token.Err? {
          return Err(token.error);
        }
        FollowedTwice(tokens, token.value, TokensFrom(source, sourceId, cursor));
        tokens := tokens + [token.value];
      }
      TokensEnd(source, sourceId);
      r := Ok(tokens + [Token(Eof, Span(sourceId, |source|, |source|), "")]);
    }
  }

  // ---------------------------------------------------------------- results continued

  lemma TriviaUnfolds(r: string)
    ensures var s := NextStretch(r);
            TriviaLength(r) ==
              if s.Last? then Ok(s.length)
              else if s.Unterminated? then Err(UnterminatedComment)
              else Longer(s.length, TriviaLength(r[s.length..]))
  {
    hide NextStretch;
  }

  function Joined(value: string, n: nat, r: Result<(string, nat), LexError>): Result<(string, nat), LexError> {
    if r.Ok? then Ok((value + r.value.0, n + r.value.1)) else r
  }

  lemma JoinedNothing(r: Result<(string, nat), LexError>)
    ensures Joined("", 0, r) == r
  {
    if r.Ok? { assert "" + r.value.0 == r.value.0; }
  }

  lemma JoinedTwice(a: string, m: nat, b: string, n: nat, r: Result<(string, nat), LexError>)
    ensures Joined(a, m, Joined(b, n, r)) == Joined(a + b, m + n, r)
  {
    if r.Ok? { assert a + (b + r.value.0) == (a + b) + r.value.0; }
  }

  lemma StringUnfolds(r: string)
    ensures StringBody(r) ==
              if r == "" || r[0] == '\n' || r[0] == '\r' then Err(UnterminatedString)
              else if r[0] == '\'' then Ok(("", 1))
              else if r[0] != '\\' then Joined([r[0]], 1, StringBody(r[1..]))
              else if |r| == 1 then Err(UnterminatedString)
              else Joined(Unescaped(r[1]), 2, StringBody(r[2..]))
  {
  }

  lemma FollowedByNothing(r: Result<seq<Token>, LexError>)
    ensures Followed([], r) == r
  {
    if r.Ok? { assert [] + r.value == r.value; }
  }

  lemma FollowedTwice(tokens: seq<Token>, token: Token, r: Result<seq<Token>, LexError>)
    ensures Followed(tokens, Followed([token], r)) == Followed(tokens + [token], r)
  {
    if r.Ok? { assert tokens + ([token] + r.value) == (tokens + [token]) + r.value; }
  }
}
