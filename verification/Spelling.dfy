/** How words, escapes and operators are spelled. */
module Spelling {
  import opened Wrappers
  import opened Lexing
  import Framing

  /** The text is the word, in small or capital letters. */
  predicate Spells(text: string, word: string) {
    |text| == |word| && forall i :: 0 <= i < |word| ==> text[i] == word[i] || Capital(text[i], word[i])
  }

  predicate Capital(capital: char, small: char) {
    'A' <= capital <= 'Z' && capital as int + ('a' as int - 'A' as int) == small as int
  }

  predicate Small(word: string) {
    forall i :: 0 <= i < |word| ==> 'a' <= word[i] <= 'z'
  }

  lemma LoweredSpells(text: string, word: string)
    requires Small(word)
    ensures Lowered(text) == word <==> Spells(text, word)
  {
    if Lowered(text) == word {
      forall i | 0 <= i < |word| ensures text[i] == word[i] || Capital(text[i], word[i]) { assert Lowered(text)[i] == Lower(text[i]); }
    }
    if Spells(text, word) {
      forall i | 0 <= i < |word| ensures Lowered(text)[i] == word[i] { assert text[i] == word[i] || Capital(text[i], word[i]); }
    }
  }

  lemma KeywordsSmall(word: string)
    requires word in KEYWORDS
    ensures Small(word) && word != "true" && word != "false"
  {
  }

  /** The truth values and the keywords are recognised in any mixture of cases, and nothing else is. */
  lemma WordsExactly(text: string)
    ensures WordKind(text) == BooleanLiteral(true) <==> Spells(text, "true")
    ensures WordKind(text) == BooleanLiteral(false) <==> Spells(text, "false")
    ensures forall word :: word in KEYWORDS ==> (WordKind(text) == Keyword(word) <==> Spells(text, word))
    ensures !Spells(text, "true") && !Spells(text, "false") && (forall word :: word in KEYWORDS ==> !Spells(text, word)) ==>
              WordKind(text) == Identifier(text)
  {
    LoweredSpells(text, "true");
    LoweredSpells(text, "false");
    hide Lowered, Spells;
    forall word | word in KEYWORDS ensures WordKind(text) == Keyword(word) <==> Spells(text, word) {
      KeywordsSmall(word);
      LoweredSpells(text, word);
    }
  }

  /** A line feed, a carriage return, a tab, the quote and the backslash; other escapes stand for themselves. */
  lemma EscapesExactly(ch: char)
    ensures ch == 'n' ==> Unescaped(ch) == ['\U{0A}']
    ensures ch == 'r' ==> Unescaped(ch) == ['\U{0D}']
    ensures ch == 't' ==> Unescaped(ch) == ['\U{09}']
    ensures ch == '\U{27}' || ch == '\U{5C}' ==> Unescaped(ch) == [ch]
    ensures ch !in {'n', 'r', 't', '\U{27}', '\U{5C}'} ==> Unescaped(ch) == ['\U{5C}', ch]
  {
  }

  lemma {:induction false} SameNumber(digits: string)
    requires Framing.AllDigits(digits)
    ensures (forall i :: 0 <= i < |digits| ==> IsDigit(digits[i])) && NumberValue(digits) == Framing.DigitsValue(digits)
  {
    if digits != "" { SameNumber(digits[..|digits| - 1]); }
  }

  /** The digits of a number are read as that number. */
  lemma NumbersExactly(n: nat)
    ensures var digits := Framing.Decimal(n);
            (forall i :: 0 <= i < |digits| ==> IsDigit(digits[i])) && NumberValue(digits) == n
  {
    Framing.DecimalValue(n);
    SameNumber(Framing.Decimal(n));
  }

  /** The operators and brackets. */
  predicate IsSymbol(s: string) {
    match |s|
    case 1 => s[0] in ".,:~@(){}[];?=!<>+-*/%&|^"
    case 2 =>
      || (s[0] == '?' && (s[1] == '?' || s[1] == '.')) || (s[0] == '=' && s[1] == '>')
      || (s[0] == s[1] && s[0] in "<>+-&|") || (s[1] == '=' && s[0] in "=!<>+-*/%&|^")
    case 3 => s[0] == s[1] && ((s[0] == '<' && s[2] == '=') || (s[0] == '>' && (s[2] == '=' || s[2] == '>')))
    case 4 => s[0] == s[1] == s[2] == '>' && s[3] == '='
    case _ => false
  }

  lemma SymbolIs(r: string)
    requires r != "" && SymbolLength(r) > 0
    ensures IsSymbol(r[..SymbolLength(r)])
  {
  }

  lemma NoLongerSymbol(r: string, k: nat)
    requires r != "" && SymbolLength(r) < k <= |r|
    ensures !IsSymbol(r[..k])
  {
  }

  /** The longest operator at the front is taken. */
  lemma LongestSymbol(r: string)
    requires r != ""
    ensures var n := SymbolLength(r);
            && (n > 0 ==> IsSymbol(r[..n]))
            && forall k :: n < k <= |r| ==> !IsSymbol(r[..k])
  {
    hide SymbolLength, IsSymbol;
    var n := SymbolLength(r);
    if n > 0 { SymbolIs(r); }
    forall k | n < k <= |r| ensures !IsSymbol(r[..k]) { NoLongerSymbol(r, k); }
  }

  // ---------------------------------------------------------------- what is written is read

  lemma {:induction false} RunIs(r: string, p: char -> bool, n: nat)
    requires n <= |r| && (forall i :: 0 <= i < n ==> p(r[i])) && (n < |r| ==> !p(r[n]))
    ensures Run(r, p) == n
    decreases n
  {
    if n > 0 { RunIs(r[1..], p, n - 1); }
  }

  function EscapedChar(ch: char): (r: string)
    ensures r != ""
  {
    match ch
    case '\n' => "\\n"
    case '\r' => "\\r"
    case '\'' => "\\'"
    case '\\' => "\\\\"
    case _ => [ch]
  }

  /** A text as the inside of a string literal. */
  function Escaped(s: string): string {
    if s == "" then "" else EscapedChar(s[0]) + Escaped(s[1..])
  }

  lemma PlainReads(text: string)
    requires text != "" && text[0] !in {'\n', '\r', '\'', '\\'} && StringBody(text[1..]).Ok?
    ensures var rest := StringBody(text[1..]).value;
            StringBody(text) == Ok(([text[0]] + rest.0, 1 + rest.1))
  {
  }

  lemma PairReads(text: string)
    requires |text| > 1 && text[0] == '\\' && StringBody(text[2..]).Ok?
    ensures var rest := StringBody(text[2..]).value;
            StringBody(text) == Ok((Unescaped(text[1]) + rest.0, 2 + rest.1))
  {
  }

  lemma CharReads(ch: char, more: string)
    requires StringBody(more).Ok?
    ensures var rest := StringBody(more).value;
            StringBody(EscapedChar(ch) + more) == Ok(([ch] + rest.0, |EscapedChar(ch)| + rest.1))
  {
    hide StringBody;
    var text := EscapedChar(ch) + more;
    if ch in {'\n', '\r', '\'', '\\'} {
      assert text[2..] == more;
      assert Unescaped(text[1]) == [ch];
      PairReads(text);
    } else {
      assert text[1..] == more;
      PlainReads(text);
    }
  }

  lemma {:induction false} EscapedReads(s: string, rest: string)
    ensures StringBody(Escaped(s) + "'" + rest) == Ok((s, |Escaped(s)| + 1))
    decreases |s|
  {
    var text := Escaped(s) + "'" + rest;
    if s == "" {
      assert text[0] == '\'';
    } else {
      EscapedReads(s[1..], rest);
      hide StringBody, EscapedChar;
      var more := Escaped(s[1..]) + "'" + rest;
      CharReads(s[0], more);
      assert text == EscapedChar(s[0]) + more;
      assert [s[0]] + s[1..] == s;
    }
  }

  /** Every text can be written as a literal and is read back from it. */
  lemma LiteralsRead(s: string, rest: string)
    ensures FrontToken("'" + Escaped(s) + "'" + rest) == Ok((StringLiteral(s), |Escaped(s)| + 2))
  {
    EscapedReads(s, rest);
    var text := "'" + Escaped(s) + "'" + rest;
    assert text[1..] == Escaped(s) + "'" + rest;
  }

  /** The first `k` characters are the digits of `n`, and no digit follows. */
  predicate StartsWithNumber(text: string, k: nat, n: nat) {
    0 < k <= |text| && text[..k] == Framing.Decimal(n) && (k < |text| ==> !IsDigit(text[k]))
  }

  lemma DigitsRun(text: string, k: nat, n: nat)
    requires StartsWithNumber(text, k, n)
    ensures (forall i :: 0 <= i < k ==> IsDigit(text[i])) && NumberValue(text[..k]) == n
    ensures FrontToken(text) == NumberAfter(text, k)
  {
    NumbersExactly(n);
    hide NumberValue, NumberAfter;
    forall i | 0 <= i < k ensures IsDigit(text[i]) { assert text[..k][i] == text[i]; }
    RunIs(text, IsDigit, k);
    DigitIsNoSymbol(text);
    hide SymbolLength, Run;
  }

  lemma DigitIsNoSymbol(text: string)
    requires text != "" && IsDigit(text[0])
    ensures SymbolLength(text) == 0
  {
  }

  /** A number within 64 bits is read as an Integer literal, as a Long literal when an `L` follows, and as a
      Decimal literal, kept as text, when a point and a digit do. */
  lemma NumbersRead(text: string, k: nat, n: nat)
    requires StartsWithNumber(text, k, n)
    ensures k == |text| || text[k] !in {'.', 'l', 'L'} || (text[k] == '.' && (k + 1 == |text| || !IsDigit(text[k + 1]))) ==>
              FrontToken(text) == if n <= 0x7fff_ffff_ffff_ffff then Ok((IntegerLiteral(n), k)) else Err(IntegerOutOfRange)
    ensures k < |text| && text[k] in {'l', 'L'} ==>
              FrontToken(text) ==
                if n <= 0x7fff_ffff_ffff_ffff_ffff_ffff_ffff_ffff then Ok((LongLiteral(n), k + 1)) else Err(LongOutOfRange)
    ensures k + 1 < |text| && text[k] == '.' && IsDigit(text[k + 1]) ==>
              FrontToken(text).Ok? && FrontToken(text).value.0 == DecimalLiteral(text[..FrontToken(text).value.1])
              && k + 1 < FrontToken(text).value.1
  {
    DigitsRun(text, k, n);
    hide FrontToken, NumberValue;
    if k + 1 < |text| && text[k] == '.' && IsDigit(text[k + 1]) { RunStarts(text[k + 1..]); }
    hide Run;
  }

  lemma RunStarts(r: string)
    requires r != "" && IsDigit(r[0])
    ensures Run(r, IsDigit) > 0
  {
  }

  predicate Letter(ch: char) {
    ch == '_' || 'a' <= ch <= 'z' || 'A' <= ch <= 'Z'
  }

  /** A word reaches as far as there are letters and digits. */
  lemma WordsRead(word: string, rest: string)
    requires word != "" && Letter(word[0]) && forall i :: 0 < i < |word| ==> Letter(word[i]) || '0' <= word[i] <= '9'
    requires rest != "" ==> !Letter(rest[0]) && !('0' <= rest[0] <= '9')
    ensures FrontToken(word + rest) == Ok((WordKind(word), |word|))
  {
    hide WordKind;
    var text := word + rest;
    assert text[0] == word[0] && forall i :: 0 <= i < |word| - 1 ==> text[1..][i] == word[i + 1];
    RunIs(text[1..], IsIdentifierContinue, |word| - 1);
    assert text[..|word|] == word && SymbolLength(text) == 0;
  }

  /** Nothing else starts a token. */
  lemma OthersRejected(r: string)
    requires r != "" && SymbolLength(r) == 0 && !Letter(r[0]) && !('0' <= r[0] <= '9') && r[0] != '\''
    ensures FrontToken(r) == Err(if r[0] == '"' then DoubleQuotes else UnexpectedCharacter(r[0]))
  {
  }
}
