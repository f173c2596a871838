/** Lexing the lexemes of a token stream again, separated by single spaces, gives the same tokens: how
    far a token reaches never depends on the trivia around it. */
module Relexing {
  import opened Wrappers
  import opened Lexing
  import opened TokenStream

  /** Nothing, or something starting with a space. */
  predicate Apart(u: string) {
    u == "" || u[0] == ' '
  }

  lemma {:induction false} RunStable(r: string, p: char -> bool, u: string)
    requires u == "" || !p(u[0])
    ensures Run(r[..Run(r, p)] + u, p) == Run(r, p)
    decreases |r|
  {
    var n := Run(r, p);
    if n > 0 {
      RunStable(r[1..], p, u);
      assert (r[..n] + u)[1..] == r[1..][..n - 1] + u;
    } else {
      assert r[..0] + u == u;
    }
  }

  lemma {:induction false} StringStable(r: string, u: string)
    requires StringBody(r).Ok?
    ensures StringBody(r[..StringBody(r).value.1] + u) == StringBody(r)
    decreases |r|
  {
    var n := StringBody(r).value.1;
    var s := r[..n] + u;
    assert s[0] == r[0];
    if r[0] == '\\' {
      StringStable(r[2..], u);
      assert s[1] == r[1] && s[2..] == r[2..][..n - 2] + u;
    } else if r[0] != '\'' {
      StringStable(r[1..], u);
      assert s[1..] == r[1..][..n - 1] + u;
    }
  }

  lemma SymbolStable(r: string, u: string)
    requires r != "" && SymbolLength(r) > 0 && Apart(u)
    ensures SymbolLength(r[..SymbolLength(r)] + u) == SymbolLength(r)
  {
    var n := SymbolLength(r);
    var s := r[..n] + u;
    assert forall i :: 0 <= i < n ==> s[i] == r[i];
    assert |s| > n ==> s[n] == ' ';
  }

  /** Whether a symbol starts is decided by the first character. */
  lemma SymbolStarts(r: string, s: string)
    requires r != "" && s != "" && r[0] == s[0]
    ensures SymbolLength(r) > 0 <==> SymbolLength(s) > 0
  {
  }

  lemma NumberStable(r: string, u: string)
    requires r != "" && IsDigit(r[0]) && NumberToken(r).Ok? && Apart(u)
    ensures var n := NumberToken(r).value.1;
            (r[..n] + u)[0] == r[0] && NumberToken(r[..n] + u) == NumberToken(r)
  {
    hide NumberAfter, Run;
    var n := NumberToken(r).value.1;
    var s := r[..n] + u;
    var digits := Run(r, IsDigit);
    RunProperty(r, IsDigit);
    RunProperty(s, IsDigit);
    MoreThanNone(r);
    DigitsFirst(r, digits);
    var rest := s[digits..];
    assert s == r[..digits] + rest;
    assert rest != "" ==> rest[0] == if digits < n then r[digits] else ' ';
    RunStable(r, IsDigit, rest);
    NumberAfterStable(r, digits, u);
  }

  lemma DigitsFirst(r: string, digits: nat)
    requires 0 < digits <= |r| && (forall i :: 0 <= i < digits ==> IsDigit(r[i])) && NumberAfter(r, digits).Ok?
    ensures digits <= NumberAfter(r, digits).value.1
  {
  }

  lemma NumberAfterStable(r: string, digits: nat, u: string)
    requires 0 < digits <= |r| && (forall i :: 0 <= i < digits ==> IsDigit(r[i])) && NumberAfter(r, digits).Ok? && Apart(u)
    requires digits <= NumberAfter(r, digits).value.1
    ensures var s := r[..NumberAfter(r, digits).value.1] + u;
            (forall i :: 0 <= i < digits ==> IsDigit(s[i])) && NumberAfter(s, digits) == NumberAfter(r, digits)
  {
    hide NumberValue, Run;
    var n := NumberAfter(r, digits).value.1;
    var s := r[..n] + u;
    assert s[..digits] == r[..digits] && s[..n] == r[..n];
    assert |s| > n ==> s[n] == ' ';
    if At(r, digits, '.') && digits + 1 < |r| && IsDigit(r[digits + 1]) {
      var more := Run(r[digits + 1..], IsDigit);
      MoreThanNone(r[digits + 1..]);
      RunStable(r[digits + 1..], IsDigit, u);
      assert s[digits + 1..] == r[digits + 1..][..more] + u;
      assert s[digits] == '.' && s[digits + 1] == r[digits + 1];
    } else {
      assert n > digits ==> s[digits] == r[digits];
    }
  }

  lemma MoreThanNone(r: string)
    requires r != "" && IsDigit(r[0])
    ensures Run(r, IsDigit) > 0
  {
  }

  /** A token is recognised again in front of anything apart. */
  lemma FrontStable(r: string, u: string)
    requires r != "" && FrontToken(r).Ok? && Apart(u)
    ensures var n := FrontToken(r).value.1;
            FrontToken(r[..n] + u) == FrontToken(r)
  {
    hide StringBody, NumberToken, SymbolLength, WordKind, Run, IsDigit;
    var n := FrontToken(r).value.1;
    var s := r[..n] + u;
    assert s[0] == r[0];
    SymbolStarts(r, s);
    if SymbolLength(r) > 0 {
      SymbolStable(r, u);
      assert s[..n] == r[..n];
    } else if r[0] == '\'' {
      StringStable(r[1..], u);
      assert s[1..] == r[1..][..n - 1] + u;
    } else if IsIdentifierStart(r[0]) {
      RunStable(r[1..], IsIdentifierContinue, u) by { SpaceContinuesNothing(u); }
      assert s[1..] == r[1..][..n - 1] + u;
      assert s[..n] == r[..n];
    } else {
      NumberStable(r, u);
    }
  }

  lemma SpaceContinuesNothing(u: string)
    requires Apart(u)
    ensures u == "" || !IsIdentifierContinue(u[0])
  {
  }

  // ---------------------------------------------------------------- no trivia in front

  /** After the trivia is skipped, no more is in front. */
  lemma {:induction false} SkippedOnce(r: string)
    requires TriviaLength(r).Ok?
    ensures NextStretch(r[TriviaLength(r).value..]) == Last(0)
    decreases |r|
  {
    hide NextStretch;
    var n := TriviaLength(r).value;
    var s := NextStretch(r);
    if s.Last? {
      NothingAfterStretch(r);
    } else {
      SkippedOnce(r[s.length..]);
      assert r[s.length..][n - s.length..] == r[n..];
    }
  }

  lemma NothingAfterStretch(r: string)
    requires NextStretch(r).Last?
    ensures NextStretch(r[NextStretch(r).length..]) == Last(0)
  {
    var n := NextStretch(r).length;
    RunProperty(r, IsWhitespace);
    assert r[n..][0..] == r[n..];
  }

  /** Neither whitespace nor a comment starts at the front of a token, and so it stays. */
  lemma NoTriviaStable(r: string, n: nat, u: string)
    requires NextStretch(r) == Last(0) && 0 < n <= |r| && Apart(u)
    ensures NextStretch(r[..n] + u) == Last(0)
  {
    var s := r[..n] + u;
    RunProperty(r, IsWhitespace);
    assert s[0] == r[0] && r[0..] == r && s[0..] == s;
    assert !IsWhitespace(r[0]);
    assert n > 1 ==> s[1] == r[1];
    assert n == 1 && |s| > 1 ==> s[1] == ' ';
    assert Run(s, IsWhitespace) == 0;
  }

  lemma SpaceThenNothing(w: string)
    requires NextStretch(w) == Last(0)
    ensures NextStretch(" " + w) == Last(1)
  {
    var s := " " + w;
    assert s[1..] == w && w[0..] == w;
    assert Run(s, IsWhitespace) == 1 + Run(w, IsWhitespace);
  }

  // ---------------------------------------------------------------- the spaced text

  /** The lexemes joined by single spaces. */
  function Spaced(tokens: seq<Token>): string {
    if tokens == [] then ""
    else if |tokens| == 1 then tokens[0].lexeme
    else tokens[0].lexeme + (" " + Spaced(tokens[1..]))
  }

  /** The lexeme is recognised as its token wherever it stands apart. */
  ghost predicate Stable(token: Token) {
    token.lexeme != "" && forall u :: Apart(u) ==>
      FrontToken(token.lexeme + u) == Ok((token.kind, |token.lexeme|)) && NextStretch(token.lexeme + u) == Last(0)
  }

  ghost predicate AllStable(tokens: seq<Token>) {
    && tokens != [] && tokens[|tokens| - 1].kind.Eof? && tokens[|tokens| - 1].lexeme == ""
    && forall i :: 0 <= i < |tokens| - 1 ==> Stable(tokens[i])
  }

  lemma {:induction false} TokensAreStable(source: string, sourceId: nat, cursor: nat)
    requires cursor <= |source| && TokensFrom(source, sourceId, cursor).Ok?
    ensures AllStable(TokensFrom(source, sourceId, cursor).value)
    decreases |source| - cursor
  {
    hide FrontToken, TriviaLength, NextStretch;
    if cursor < |source| {
      var trivia := TriviaLength(source[cursor..]).value;
      var start := cursor + trivia;
      if start < |source| {
        SkippedOnce(source[cursor..]);
        assert source[cursor..][trivia..] == source[start..];
        var front := FrontToken(source[start..]).value;
        var end := start + front.1;
        TokensAreStable(source, sourceId, end);
        var token := Token(front.0, Span(sourceId, start, end), source[start..end]);
        assert source[start..][..front.1] == token.lexeme;
        TokenIsStable(source[start..], token);
        StableStep(token, TokensFrom(source, sourceId, end).value);
      }
    }
  }

  lemma TokenIsStable(r: string, token: Token)
    requires r != "" && FrontToken(r).Ok? && NextStretch(r) == Last(0)
    requires token.kind == FrontToken(r).value.0 && token.lexeme == r[..FrontToken(r).value.1]
    ensures Stable(token)
  {
    hide FrontToken, NextStretch;
    forall u | Apart(u)
      ensures FrontToken(token.lexeme + u) == Ok((token.kind, |token.lexeme|)) && NextStretch(token.lexeme + u) == Last(0)
    {
      FrontStable(r, u);
      NoTriviaStable(r, |token.lexeme|, u);
    }
  }

  lemma StableStep(token: Token, rest: seq<Token>)
    requires Stable(token) && AllStable(rest)
    ensures AllStable([token] + rest)
  {
    hide Stable;
    var all := [token] + rest;
    assert forall i :: 0 < i < |all| ==> all[i] == rest[i - 1];
  }

  /** The same kinds and lexemes, one by one. */
  ghost predicate SameTokens(a: seq<Token>, b: seq<Token>) {
    |a| == |b| && forall i :: 0 <= i < |a| ==> a[i].kind == b[i].kind && a[i].lexeme == b[i].lexeme
  }

  /** Lexing from a position from which the text is the spaced tokens, perhaps after one space. */
  lemma {:induction false} SpacedLexes(text: string, sourceId: nat, cursor: nat, space: bool, tokens: seq<Token>)
    requires cursor <= |text| && AllStable(tokens)
    requires text[cursor..] == (if space then " " else "") + Spaced(tokens)
    ensures TokensFrom(text, sourceId, cursor).Ok? && SameTokens(tokens, TokensFrom(text, sourceId, cursor).value)
    decreases |tokens|
  {
    hide FrontToken, NextStretch, Stable, TriviaLength, TokensFrom;
    var gap := if space then 1 else 0;
    FrontTrivia(tokens, space);
    if cursor == |text| {
      TokensEnd(text, sourceId);
      EmptyText(tokens);
    } else {
      TokensUnfold(text, sourceId, cursor);
      if |tokens| > 1 {
        var t := tokens[0];
        var u := " " + Spaced(tokens[1..]);
        StableFront(t, u);
        TextAfter(text, cursor, space, t.lexeme, u);
        StableRest(tokens);
        SpacedLexes(text, sourceId, cursor + gap + |t.lexeme|, true, tokens[1..]);
      }
    }
  }

  lemma EmptyText(tokens: seq<Token>)
    requires AllStable(tokens) && Spaced(tokens) == ""
    ensures |tokens| == 1
  {
  }

  lemma StableRest(tokens: seq<Token>)
    requires AllStable(tokens) && |tokens| > 1
    ensures AllStable(tokens[1..])
  {
    hide Stable;
  }

  lemma TextAfter(text: string, cursor: nat, space: bool, w: string, u: string)
    requires cursor <= |text| && text[cursor..] == (if space then " " else "") + (w + u)
    ensures var start := cursor + if space then 1 else 0;
            var end := start + |w|;
            end <= |text| && text[start..] == w + u && text[start..end] == w && text[end..] == u
  {
    var gap := if space then 1 else 0;
    var start := cursor + gap;
    assert |text| - cursor == gap + |w| + |u|;
    assert text[start..] == text[cursor..][gap..] == w + u;
    var end := start + |w|;
    assert text[end..] == text[start..][|w|..] == u;
    assert text[start..end] == text[start..][..|w|] == w;
  }

  lemma StableFront(token: Token, u: string)
    requires Stable(token) && Apart(u)
    ensures token.lexeme != "" && FrontToken(token.lexeme + u) == Ok((token.kind, |token.lexeme|))
    ensures NextStretch(token.lexeme + u) == Last(0)
  {
  }

  lemma FrontTrivia(tokens: seq<Token>, space: bool)
    requires AllStable(tokens)
    ensures TriviaLength((if space then " " else "") + Spaced(tokens)) == Ok(if space then 1 else 0)
  {
    hide Stable;
    var w := Spaced(tokens);
    if |tokens| > 1 {
      StableFront(tokens[0], " " + Spaced(tokens[1..]));
    }
    assert NextStretch(w) == Last(0);
    SpaceThenNothing(w);
    assert "" + w == w;
  }

  /** Re-lexing the lexemes of a successful token stream gives the same kinds and lexemes. */
  lemma RelexingIsStable(source: string, sourceId: nat)
    requires Tokens(source, sourceId).Ok?
    ensures var tokens := Tokens(source, sourceId).value;
            var again := Tokens(Spaced(tokens), sourceId);
            again.Ok? && SameTokens(tokens, again.value)
  {
    TokensAreStable(source, sourceId, 0);
    var tokens := Tokens(source, sourceId).value;
    assert "" + Spaced(tokens) == Spaced(tokens);
    SpacedLexes(Spaced(tokens), sourceId, 0, false, tokens);
  }
}
