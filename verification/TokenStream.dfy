/** What the parser demands of a token stream, and why the lexer's streams always pass. */
module TokenStream {
  import opened Wrappers
  import opened Lexing

  datatype StreamError =
    | Empty
    | MixedSource(span: Span)
    | ReversedSpan(span: Span)
    | NonMonotonicSpan(span: Span)
    | OverlappingSpan(span: Span)
    | MissingEof(span: Span)
    | InteriorEof(span: Span)

  ghost predicate OneSource(tokens: seq<Token>) {
    forall i :: 0 <= i < |tokens| ==> tokens[i].span.sourceId == tokens[0].span.sourceId
  }

  /** Every span runs forward and begins where the one before it has ended, or later. */
  ghost predicate Ordered(tokens: seq<Token>) {
    && (forall i :: 0 <= i < |tokens| ==> tokens[i].span.start <= tokens[i].span.end)
    && (forall i :: 0 < i < |tokens| ==> tokens[i - 1].span.end <= tokens[i].span.start)
  }

  /** One end-of-file token, at the end. */
  ghost predicate Terminated(tokens: seq<Token>) {
    tokens != [] && forall i :: 0 <= i < |tokens| ==> (tokens[i].kind.Eof? <==> i == |tokens| - 1)
  }

  ghost predicate WellFormed(tokens: seq<Token>) {
    Terminated(tokens) && OneSource(tokens) && Ordered(tokens)
  }

  /** The reported token really has the reported defect. */
  ghost predicate Justified(tokens: seq<Token>, e: StreamError) {
    match e
    case Empty => tokens == []
    case MixedSource(span) => exists i :: 0 < i < |tokens| && tokens[i].span == span && span.sourceId != tokens[0].span.sourceId
    case ReversedSpan(span) => exists i :: 0 <= i < |tokens| && tokens[i].span == span && span.start > span.end
    case NonMonotonicSpan(span) => exists i :: 0 < i < |tokens| && tokens[i].span == span && span.start < tokens[i - 1].span.start
    case OverlappingSpan(span) =>
      exists i :: 0 < i < |tokens| && tokens[i].span == span && tokens[i - 1].span.start <= span.start < tokens[i - 1].span.end
    case MissingEof(span) => tokens != [] && tokens[|tokens| - 1].span == span && forall i :: 0 <= i < |tokens| ==> !tokens[i].kind.Eof?
    case InteriorEof(span) => exists i :: 0 <= i < |tokens| - 1 && tokens[i].kind.Eof? && tokens[i].span == span
  }

  /** Accepts exactly the well-formed streams, and otherwise names a real defect. */
  method ValidateTokenStream(tokens: seq<Token>) returns (r: Result<(), StreamError>)
    ensures r.Ok? <==> WellFormed(tokens)
    ensures r.Err? ==> Justified(tokens, r.error)
  {
    if tokens == [] {
      return Err(Empty);
    }
    var sourceId := tokens[0].span.sourceId;
    var previous: Option<Span> := None;
    for i := 0 to |tokens|
      invariant previous == if i == 0 then None else Some(tokens[i - 1].span)
      invariant OneSource(tokens[..i]) && Ordered(tokens[..i])
    {
      var span := tokens[i].span;
      if span.sourceId != sourceId {
        assert !OneSource(tokens);
        return Err(MixedSource(span));
      }
      if span.start > span.end {
        return Err(ReversedSpan(span));
      }
      if previous.Some? {
        if span.start < previous.value.start {
          assert tokens[..i][i - 1].span.start <= tokens[..i][i - 1].span.end;
          return Err(NonMonotonicSpan(span));
        }
        if span.start < previous.value.end {
          return Err(OverlappingSpan(span));
        }
      }
      previous := Some(span);
    }
    assert tokens[..|tokens|] == tokens;
    var last := |tokens| - 1;
    var interior := FindEof(tokens, last);
    if !tokens[last].kind.Eof? {
      if interior < last {
        return Err(InteriorEof(tokens[interior].span));
      }
      return Err(MissingEof(tokens[last].span));
    }
    if interior < last {
      return Err(InteriorEof(tokens[interior].span));
    }
    return Ok(());
  }

  /** The first end-of-file token before `limit`, or `limit`. */
  method FindEof(tokens: seq<Token>, limit: nat) returns (i: nat)
    requires limit <= |tokens|
    ensures i <= limit && (i < limit ==> tokens[i].kind.Eof?) && forall j :: 0 <= j < i ==> !tokens[j].kind.Eof?
  {
    i := 0;
    while i < limit && !tokens[i].kind.Eof?
      invariant 0 <= i <= limit && forall j :: 0 <= j < i ==> !tokens[j].kind.Eof?
    {
      i := i + 1;
    }
  }

  // ---------------------------------------------------------------- the lexer's streams

  /** Whitespace and comments only. */
  ghost predicate TriviaText(g: string)
    decreases |g|
  {
    || g == ""
    || (IsWhitespace(g[0]) && TriviaText(g[1..]))
    || (exists k :: 2 <= k <= |g| && LineComment(g, k) && TriviaText(g[k..]))
    || (exists k :: 4 <= k <= |g| && BlockComment(g, k) && TriviaText(g[k..]))
  }

  /** The first `k` characters are a line comment without its line break. */
  ghost predicate LineComment(g: string, k: nat) {
    k <= |g| && At(g, 0, '/') && At(g, 1, '/') && forall i :: 0 <= i < k ==> g[i] != '\n'
  }

  ghost predicate BlockComment(g: string, k: nat) {
    4 <= k <= |g| && At(g, 0, '/') && At(g, 1, '*') && g[k - 2] == '*' && g[k - 1] == '/'
  }

  lemma {:induction false} SpacesAreTrivia(r: string, n: nat, g: string)
    requires n <= Run(r, IsWhitespace) && TriviaText(g)
    ensures n <= |r| && TriviaText(r[..n] + g)
  {
    if n > 0 {
      SpacesAreTrivia(r[1..], n - 1, g);
      assert (r[..n] + g)[1..] == r[1..][..n - 1] + g;
    } else {
      assert r[..0] + g == g;
    }
  }

  lemma {:induction false} CommentEnds(r: string)
    requires CommentLength(r).Some?
    ensures var n := CommentLength(r).value;
            r[n - 2] == '*' && r[n - 1] == '/'
  {
    if !(At(r, 0, '*') && At(r, 1, '/')) {
      CommentEnds(r[1..]);
      var n := CommentLength(r[1..]).value;
      assert r[1..][n - 2] == r[n - 1] && r[1..][n - 1] == r[n];
    }
  }

  /** What is skipped in front of a token is trivia. */
  lemma {:induction false} SkippedIsTrivia(r: string)
    requires TriviaLength(r).Ok?
    ensures TriviaText(r[..TriviaLength(r).value])
    decreases |r|
  {
    hide TriviaText, Run, CommentLength, NextStretch;
    var n := TriviaLength(r).value;
    var s := NextStretch(r);
    StretchShape(r);
    var spaces := Run(r, IsWhitespace);
    if s.Last? {
      assert r[..n] == r[..spaces] + "";
      EmptyIsTrivia();
      SpacesAreTrivia(r, spaces, "");
    } else {
      SkippedIsTrivia(r[s.length..]);
      var after := r[s.length..][..n - s.length];
      var comment := r[spaces..][..s.length - spaces];
      assert r[..n] == r[..spaces] + (comment + after);
      CommentIsTrivia(r[spaces..], s.length - spaces, after);
      SpacesAreTrivia(r, spaces, comment + after);
    }
  }

  predicate IsComment(rest: string, k: nat) {
    if At(rest, 0, '/') && At(rest, 1, '/') then k == Run(rest, IsNotNewline)
    else At(rest, 0, '/') && At(rest, 1, '*') && CommentLength(rest[2..]).Some? && k == 2 + CommentLength(rest[2..]).value
  }

  lemma StretchShape(r: string)
    ensures var s := NextStretch(r);
            var spaces := Run(r, IsWhitespace);
            && (s.Last? ==> s.length == spaces)
            && (s.Commented? ==> spaces <= s.length && IsComment(r[spaces..], s.length - spaces))
  {
  }

  lemma CommentIsTrivia(rest: string, k: nat, after: string)
    requires TriviaText(after)
    requires IsComment(rest, k)
    ensures k <= |rest| && TriviaText(rest[..k] + after)
  {
    var g := rest[..k] + after;
    assert g[k..] == after;
    if At(rest, 0, '/') && At(rest, 1, '/') {
      RunProperty(rest, IsNotNewline);
      LineHasMarker(rest);
      forall i | 0 <= i < k
        ensures g[i] != '\n'
      {
        assert g[i] == rest[i] && IsNotNewline(rest[i]);
      }
      assert LineComment(g, k);
    } else {
      CommentEnds(rest[2..]);
      assert BlockComment(g, k);
    }
  }

  lemma LineHasMarker(rest: string)
    requires At(rest, 0, '/') && At(rest, 1, '/')
    ensures Run(rest, IsNotNewline) >= 2
  {
    assert Run(rest[1..], IsNotNewline) >= 1;
  }

  /** From `cursor` on: spans within the source, lexemes as in the source, trivia between them. */
  ghost predicate Faithful(source: string, sourceId: nat, cursor: nat, tokens: seq<Token>) {
    && cursor <= |source|
    && (forall i :: 0 <= i < |tokens| ==> TokenFaithful(source, sourceId, tokens[i]))
    && (forall i :: 0 <= i < |tokens| ==> GapIsTrivia(source, cursor, tokens, i))
    && tokens != [] && tokens[|tokens| - 1].span.start == |source|
  }

  /** Only trivia between a token and the one before it. */
  ghost predicate GapIsTrivia(source: string, cursor: nat, tokens: seq<Token>, i: nat)
    requires i < |tokens|
  {
    var before := if i == 0 then cursor else tokens[i - 1].span.end;
    before <= tokens[i].span.start <= |source| && TriviaText(source[before..tokens[i].span.start])
  }

  ghost predicate TokenFaithful(source: string, sourceId: nat, token: Token) {
    && token.span.sourceId == sourceId
    && token.span.start <= token.span.end <= |source|
    && token.lexeme == source[token.span.start..token.span.end]
    && (token.kind.Eof? <==> token.lexeme == "")
  }

  lemma {:induction false} TokensAreFaithful(source: string, sourceId: nat, cursor: nat)
    requires cursor <= |source| && TokensFrom(source, sourceId, cursor).Ok?
    ensures var tokens := TokensFrom(source, sourceId, cursor).value;
            Faithful(source, sourceId, cursor, tokens) && Terminated(tokens)
    decreases |source| - cursor
  {
    hide FrontToken, TriviaLength, TriviaText;
    var tokens := TokensFrom(source, sourceId, cursor).value;
    if cursor < |source| {
      SkippedIsTrivia(source[cursor..]);
      var start := cursor + TriviaLength(source[cursor..]).value;
      assert source[cursor..][..start - cursor] == source[cursor..start];
      if start < |source| {
        var front := FrontToken(source[start..]).value;
        FrontIsNotEof(source[start..]);
        var end := start + front.1;
        TokensAreFaithful(source, sourceId, end);
        FaithfulStep(source, sourceId, cursor, Token(front.0, Span(sourceId, start, end), source[start..end]),
                     TokensFrom(source, sourceId, end).value);
      } else {
        EofOnly(source, sourceId, cursor);
      }
    } else {
      EmptyIsTrivia();
      assert source[cursor..|source|] == "";
      EofOnly(source, sourceId, cursor);
    }
  }

  lemma EofOnly(source: string, sourceId: nat, cursor: nat)
    requires cursor <= |source| && TriviaText(source[cursor..|source|])
    ensures var tokens := [Token(Eof, Span(sourceId, |source|, |source|), "")];
            Faithful(source, sourceId, cursor, tokens) && Terminated(tokens)
  {
    hide TriviaText;
  }

  lemma EmptyIsTrivia()
    ensures TriviaText("")
  {
  }

  lemma FrontIsNotEof(r: string)
    requires r != "" && FrontToken(r).Ok?
    ensures !FrontToken(r).value.0.Eof?
  {
  }

  lemma FaithfulStep(source: string, sourceId: nat, cursor: nat, token: Token, rest: seq<Token>)
    requires TokenFaithful(source, sourceId, token) && !token.kind.Eof?
    requires cursor <= token.span.start <= |source| && TriviaText(source[cursor..token.span.start])
    requires Faithful(source, sourceId, token.span.end, rest) && Terminated(rest)
    ensures Faithful(source, sourceId, cursor, [token] + rest) && Terminated([token] + rest)
  {
    hide TriviaText, TokenFaithful, GapIsTrivia;
    var all := [token] + rest;
    assert all[0] == token && forall i :: 0 < i < |all| ==> all[i] == rest[i - 1];
    forall i | 0 <= i < |all|
      ensures TokenFaithful(source, sourceId, all[i]) && GapIsTrivia(source, cursor, all, i)
    {
      if i == 0 { FirstGap(source, sourceId, cursor, token, rest); } else { LaterGap(source, cursor, token, rest, i); }
    }
    forall i | 0 <= i < |all|
      ensures all[i].kind.Eof? <==> i == |all| - 1
    {
      if i > 0 { assert all[i] == rest[i - 1]; }
    }
  }

  lemma FirstGap(source: string, sourceId: nat, cursor: nat, token: Token, rest: seq<Token>)
    requires TokenFaithful(source, sourceId, token)
    requires cursor <= token.span.start <= |source| && TriviaText(source[cursor..token.span.start])
    ensures GapIsTrivia(source, cursor, [token] + rest, 0)
  {
  }

  lemma LaterGap(source: string, cursor: nat, token: Token, rest: seq<Token>, i: nat)
    requires 0 < i <= |rest| && GapIsTrivia(source, token.span.end, rest, i - 1)
    ensures GapIsTrivia(source, cursor, [token] + rest, i)
  {
    hide TriviaText;
    var all := [token] + rest;
    assert all[i] == rest[i - 1] && all[i - 1] == if i == 1 then token else rest[i - 2];
  }

  /** The parser's validation accepts every stream the lexer produces: spans of one source, ordered
      and disjoint, one end-of-file token at the end, each lexeme its slice of the source and nothing
      but whitespace and comments between them. */
  lemma LexerStreamsAreValid(source: string, sourceId: nat)
    requires Tokens(source, sourceId).Ok?
    ensures var tokens := Tokens(source, sourceId).value;
            WellFormed(tokens) && Faithful(source, sourceId, 0, tokens)
  {
    hide TriviaText, TokensFrom;
    TokensAreFaithful(source, sourceId, 0);
    var tokens := Tokens(source, sourceId).value;
    forall i | 0 < i < |tokens|
      ensures tokens[i - 1].span.end <= tokens[i].span.start
    {
      assert GapIsTrivia(source, 0, tokens, i);
    }
  }
}
