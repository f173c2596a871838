/** Messages framed by a `Content-Length` header. Bytes are characters below 256. */
module Framing {
  import opened Wrappers

  const MAX_USIZE: nat := 0xffff_ffff_ffff_ffff

  // ---------------------------------------------------------------- decimal numbers

  function Digit(n: nat): char
    requires n < 10
  {
    ('0' as int + n) as char
  }

  function Decimal(n: nat): string {
    if n < 10 then [Digit(n)] else Decimal(n / 10) + [Digit(n % 10)]
  }

  predicate AllDigits(s: string) {
    forall i :: 0 <= i < |s| ==> '0' <= s[i] <= '9'
  }

  function DigitsValue(s: string): nat
    requires AllDigits(s)
  {
    if s == "" then 0
    else
      assert '0' <= s[|s| - 1] <= '9';
      10 * DigitsValue(s[..|s| - 1]) + (s[|s| - 1] as int - '0' as int)
  }

  /** Digits, perhaps after a plus sign, within 64 bits. */
  function ParseUsize(s: string): Option<nat> {
    var digits := if s != "" && s[0] == '+' then s[1..] else s;
    if digits == "" || !AllDigits(digits) || DigitsValue(digits) > MAX_USIZE then None else Some(DigitsValue(digits))
  }

  lemma {:induction false} DecimalValue(n: nat)
    ensures Decimal(n) != "" && AllDigits(Decimal(n)) && DigitsValue(Decimal(n)) == n
  {
    if n < 10 {
      assert [Digit(n)][..0] == "";
    } else {
      DecimalValue(n / 10);
      var front := Decimal(n / 10);
      assert Decimal(n)[..|front|] == front && |Decimal(n)| - 1 == |front|;
    }
  }

  lemma DecimalParses(n: nat)
    requires n <= MAX_USIZE
    ensures ParseUsize(Decimal(n)) == Some(n)
  {
    DecimalValue(n);
    assert '0' <= Decimal(n)[0] <= '9';
  }

  // ---------------------------------------------------------------- lines

  /** The length of the first line with its line break, or of all there is. */
  function LineLength(s: string): (n: nat)
    ensures n <= |s| && (s != "" ==> n > 0)
  {
    if s == "" then 0 else if s[0] == '\n' then 1 else 1 + LineLength(s[1..])
  }

  predicate IsSpace(ch: char) {
    '\t' <= ch <= '\r' || ch == ' '
  }

  function TrimStart(s: string): string {
    if s != "" && IsSpace(s[0]) then TrimStart(s[1..]) else s
  }

  function TrimEnd(s: string): string {
    if s != "" && IsSpace(s[|s| - 1]) then TrimEnd(s[..|s| - 1]) else s
  }

  function Trim(s: string): string {
    TrimEnd(TrimStart(s))
  }

  /** The position of the first colon. */
  function Colon(s: string): (i: nat)
    ensures i <= |s| && (i < |s| ==> s[i] == ':') && forall j :: 0 <= j < i ==> s[j] != ':'
  {
    if s == "" || s[0] == ':' then 0
    else
      var i := Colon(s[1..]);
      assert forall j :: 0 < j < 1 + i ==> s[j] == s[1..][j - 1];
      1 + i
  }

  function LowerCase(ch: char): char {
    if 'A' <= ch <= 'Z' then (ch as int + 32) as char else ch
  }

  predicate EqualIgnoringCase(a: string, b: string) {
    |a| == |b| && forall i :: 0 <= i < |a| ==> LowerCase(a[i]) == LowerCase(b[i])
  }

  const NAME := "Content-Length"

  datatype Header = Other | Length(length: nat) | BadLength

  function ParseHeader(line: string): Header {
    var text := Trim(line);
    var i := Colon(text);
    if i == |text| || !EqualIgnoringCase(text[..i], NAME) then Other
    else
      var n := ParseUsize(Trim(text[i + 1..]));
      if n.None? then BadLength else Length(n.value)
  }

  // ---------------------------------------------------------------- messages

  datatype Received =
    | Message(body: string, rest: string)
    | EndOfInput
    | InvalidData
    | UnexpectedEnd

  /** Header lines up to a blank one; the last length counts. */
  function ReadFrom(s: string, length: Option<nat>): (r: Received)
    ensures r.Message? ==> |r.rest| < |s|
    decreases |s|
  {
    var n := LineLength(s);
    if n == 0 then EndOfInput
    else if s[..n] == "\r\n" || s[..n] == "\n" then
      if length.None? then InvalidData
      else if length.value > |s| - n then UnexpectedEnd
      else Message(s[n..n + length.value], s[n + length.value..])
    else
      match ParseHeader(s[..n])
      case Other => ReadFrom(s[n..], length)
      case Length(found) => ReadFrom(s[n..], Some(found))
      case BadLength => InvalidData
  }

  function NextMessage(s: string): Received {
    ReadFrom(s, None)
  }

  function Framed(body: string): string {
    NAME + ": " + Decimal(|body|) + "\r\n\r\n" + body
  }

  /** What is written is the name and the number of bytes of the body, a blank line, and the body. */
  lemma FramedIs(body: string)
    ensures var s := Framed(body);
            exists digits :: s == "Content-Length: " + digits + "\r\n\r\n" + body && AllDigits(digits) && DigitsValue(digits) == |body|
  {
    DecimalValue(|body|);
    assert NAME + ": " == "Content-Length: ";
    assert Framed(body) == "Content-Length: " + Decimal(|body|) + "\r\n\r\n" + body;
  }

  class Reader {
    const input: string
    var cursor: nat

    constructor (input: string)
      ensures this.input == input && cursor == 0
    {
      this.input, cursor := input, 0;
    }

    ghost predicate Valid()
      reads this
    {
      cursor <= |input|
    }

    function Remaining(): string
      requires Valid()
      reads this
    {
      input[cursor..]
    }

    /** Up to and including the next line break. */
    method ReadLine() returns (line: string)
      requires Valid()
      modifies this`cursor
      ensures Valid() && line == old(Remaining())[..LineLength(old(Remaining()))]
      ensures Remaining() == old(Remaining())[LineLength(old(Remaining()))..]
    {
      var start := cursor;
      ghost var text := Remaining();
      while cursor < |input| && input[cursor] != '\n'
        invariant start <= cursor <= |input|
        invariant LineLength(text) == cursor - start + LineLength(input[cursor..])
      {
        assert input[cursor..][1..] == input[cursor + 1..];
        cursor := cursor + 1;
      }
      if cursor < |input| {
        cursor := cursor + 1;
      }
      line := input[start..cursor];
      assert line == text[..cursor - start];
    }

    method ReadMessage() returns (r: Received)
      requires Valid()
      modifies this`cursor
      ensures Valid() && r == NextMessage(old(Remaining()))
      ensures r.Message? ==> Remaining() == r.rest
    {
      hide LineLength, ParseHeader;
      var length: Option<nat> := None;
      while true
        invariant Valid() && ReadFrom(old(Remaining()), None) == ReadFrom(Remaining(), length)
        decreases |input| - cursor
      {
        ghost var text := Remaining();
        var line := ReadLine();
        if line == "" {
          return EndOfInput;
        }
        if line == "\r\n" || line == "\n" {
          break;
        }
        match ParseHeader(line) {
          case Other =>
          case Length(found) => length := Some(found);
          case BadLength => return InvalidData;
        }
      }
      if length.None? {
        return InvalidData;
      }
      if length.value > |input| - cursor {
        return UnexpectedEnd;
      }
      var body := input[cursor..cursor + length.value];
      cursor := cursor + length.value;
      r := Message(body, input[cursor..]);
    }
  }

  /** Appends the framed body to what was written so far. */
  method WriteMessage(written: string, body: string) returns (after: string)
    ensures after == written + Framed(body)
  {
    after := written + NAME + ": " + Decimal(|body|) + "\r\n\r\n";
    after := after + body;
  }

  // ---------------------------------------------------------------- the round trip

  lemma {:induction false} LineLengthAt(s: string, k: nat)
    requires k < |s| && s[k] == '\n' && forall i :: 0 <= i < k ==> s[i] != '\n'
    ensures LineLength(s) == k + 1
    decreases k
  {
    if k > 0 { LineLengthAt(s[1..], k - 1); }
  }

  lemma {:induction false} ColonAt(s: string, k: nat)
    requires k < |s| && s[k] == ':' && forall i :: 0 <= i < k ==> s[i] != ':'
    ensures Colon(s) == k
    decreases k
  {
    if k > 0 { ColonAt(s[1..], k - 1); }
  }

  lemma TrimsBreak(text: string)
    requires text != "" && !IsSpace(text[0]) && !IsSpace(text[|text| - 1])
    ensures Trim(text + "\r\n") == text
  {
    var s := text + "\r\n";
    assert s[..|s| - 1] == text + "\r" && (text + "\r")[..|text|] == text;
    assert TrimStart(s) == s;
    assert TrimEnd(text + "\r") == TrimEnd(text) == text;
  }

  lemma TrimsSpace(text: string)
    requires text != "" && !IsSpace(text[0]) && !IsSpace(text[|text| - 1])
    ensures Trim(" " + text) == text
  {
    assert (" " + text)[1..] == text;
    assert TrimStart(" " + text) == TrimStart(text) == text;
  }

  lemma LengthHeader(n: nat)
    requires n <= MAX_USIZE
    ensures ParseHeader(NAME + ": " + Decimal(n) + "\r\n") == Length(n)
  {
    hide Trim, Colon, ParseUsize, Decimal, DigitsValue, AllDigits, IsSpace;
    DecimalParses(n);
    DecimalEnds(n);
    var digits := Decimal(n);
    var text := NAME + ": " + digits;
    assert text[0] == 'C' && text[|text| - 1] == digits[|digits| - 1];
    TrimsBreak(text) by { LetterIsNoSpace(); }
    ColonAt(text, 14);
    assert text[..14] == NAME && text[15..] == " " + digits;
    TrimsSpace(digits);
    assert NAME + ": " + digits + "\r\n" == text + "\r\n";
  }

  lemma LetterIsNoSpace()
    ensures !IsSpace('C')
  {
  }

  lemma DecimalEnds(n: nat)
    ensures Decimal(n) != "" && !IsSpace(Decimal(n)[0]) && !IsSpace(Decimal(n)[|Decimal(n)| - 1])
  {
    DecimalValue(n);
    assert '0' <= Decimal(n)[0] <= '9' && '0' <= Decimal(n)[|Decimal(n)| - 1] <= '9';
  }

  lemma LengthLine(n: nat, more: string)
    ensures var line := NAME + ": " + Decimal(n) + "\r\n";
            LineLength(line + more) == |line| && (line + more)[..|line|] == line && (line + more)[|line|..] == more
  {
    DecimalValue(n);
    var line := NAME + ": " + Decimal(n) + "\r\n";
    var digits := Decimal(n);
    var s := line + more;
    assert forall i :: 0 <= i < |digits| ==> '0' <= digits[i] <= '9';
    assert forall i :: 0 <= i < |line| - 1 ==> line[i] != '\n' by {
      assert forall i :: 16 <= i < 16 + |digits| ==> line[i] == digits[i - 16];
      assert line[..16] == NAME + ": ";
    }
    LineLengthAt(s, |line| - 1);
  }

  /** Reading a framed body gives it back, whatever bytes it and what follows contain. */
  lemma FramingRoundTrip(body: string, more: string)
    requires |body| <= MAX_USIZE
    ensures NextMessage(Framed(body) + more) == Message(body, more)
  {
    hide LineLength, ParseHeader, Decimal;
    var line := NAME + ": " + Decimal(|body|) + "\r\n";
    var s := Framed(body) + more;
    var tail := "\r\n" + (body + more);
    assert s == line + tail;
    LengthLine(|body|, tail);
    LengthHeader(|body|);
    assert line != "\r\n" && line != "\n" by { assert line[0] == 'C'; }
    BlankLine(body + more);
    assert tail[2..] == body + more && (body + more)[..|body|] == body && (body + more)[|body|..] == more;
    assert tail[2..2 + |body|] == body && tail[2 + |body|..] == more;
    assert ReadFrom(tail, Some(|body|)) == Message(body, more);
    assert ReadFrom(s, None) == ReadFrom(tail, Some(|body|));
  }

  lemma BlankLine(more: string)
    ensures LineLength("\r\n" + more) == 2 && ("\r\n" + more)[..2] == "\r\n"
  {
    LineLengthAt("\r\n" + more, 1);
  }

  function AllFramed(bodies: seq<string>): string {
    if bodies == [] then "" else Framed(bodies[0]) + AllFramed(bodies[1..])
  }

  /** Messages until the end of input or an error. */
  function ReadAll(s: string): (seq<string>, Received)
    decreases |s|
  {
    var r := NextMessage(s);
    if !r.Message? then ([], r)
    else
      var (bodies, last) := ReadAll(r.rest);
      ([r.body] + bodies, last)
  }

  /** Reading any list of written messages returns that list and then the end of input. */
  lemma {:induction false} StreamRoundTrip(bodies: seq<string>)
    requires forall i :: 0 <= i < |bodies| ==> |bodies[i]| <= MAX_USIZE
    ensures ReadAll(AllFramed(bodies)) == (bodies, EndOfInput)
  {
    hide ReadFrom, Decimal;
    if bodies == [] {
      NothingLeft();
    } else {
      FramingRoundTrip(bodies[0], AllFramed(bodies[1..]));
      StreamRoundTrip(bodies[1..]);
      assert [bodies[0]] + bodies[1..] == bodies;
    }
  }

  lemma NothingLeft()
    ensures NextMessage("") == EndOfInput
  {
  }
}
