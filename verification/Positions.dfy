/** Byte offsets and line/column positions in UTF-8 text. Lines and columns count from 1, columns in
    characters. */
module Positions {
  import opened Wrappers

  /** The number of bytes of a character, by section 3 of RFC 3629. */
  function Width(ch: char): (n: nat)
    ensures 1 <= n <= 4
  {
    if ch as int < 0x80 then 1 else if ch as int < 0x800 then 2 else if ch as int < 0x10000 then 3 else 4
  }

  function Bytes(s: string): nat {
    if s == "" then 0 else Width(s[0]) + Bytes(s[1..])
  }

  // ---------------------------------------------------------------- the bytes of the text

  /** The encoding of section 3 of RFC 3629: the lead byte tells the number of bytes, every further byte
      carries six bits. */
  predicate Encodes(bytes: seq<nat>, ch: char) {
    var c := ch as int;
    && (forall i :: 1 <= i < |bytes| ==> 0x80 <= bytes[i] < 0xC0)
    && match |bytes|
       case 1 => bytes[0] < 0x80 && c == bytes[0]
       case 2 => 0xC0 <= bytes[0] < 0xE0 && c >= 0x80 && c == (bytes[0] - 0xC0) * 0x40 + (bytes[1] - 0x80)
       case 3 => 0xE0 <= bytes[0] < 0xF0 && c >= 0x800 && c == (bytes[0] - 0xE0) * 0x1000 + (bytes[1] - 0x80) * 0x40 + (bytes[2] - 0x80)
       case 4 => 0xF0 <= bytes[0] < 0xF8 && c >= 0x1_0000
                 && c == (bytes[0] - 0xF0) * 0x4_0000 + (bytes[1] - 0x80) * 0x1000 + (bytes[2] - 0x80) * 0x40 + (bytes[3] - 0x80)
       case _ => false
  }

  lemma EncodingWidth(bytes: seq<nat>, ch: char)
    requires Encodes(bytes, ch)
    ensures |bytes| == Width(ch)
  {
  }

  lemma SixBits(c: nat) returns (high: nat, low: nat)
    ensures c == high * 0x40 + low && low < 0x40 && high == c / 0x40
  {
    high, low := c / 0x40, c % 0x40;
  }

  lemma EncodingExists(ch: char) returns (bytes: seq<nat>)
    ensures Encodes(bytes, ch)
  {
    var c := ch as int;
    var h1, l1 := SixBits(c);
    var h2, l2 := SixBits(h1);
    var h3, l3 := SixBits(h2);
    if c < 0x80 { bytes := [c]; }
    else if c < 0x800 { bytes := [0xC0 + h1, 0x80 + l1]; }
    else if c < 0x1_0000 { bytes := [0xE0 + h2, 0x80 + l2, 0x80 + l1]; }
    else { bytes := [0xF0 + h3, 0x80 + l3, 0x80 + l2, 0x80 + l1]; }
  }

  /** Every character has an encoding, and that has as many bytes as the width says. */
  lemma WidthExactly(ch: char)
    ensures exists bytes :: Encodes(bytes, ch)
    ensures forall bytes :: Encodes(bytes, ch) ==> |bytes| == Width(ch)
  {
    hide Encodes, Width;
    var some := EncodingExists(ch);
    forall bytes | Encodes(bytes, ch) ensures |bytes| == Width(ch) {
      EncodingWidth(bytes, ch);
    }
  }

  /** The bytes of a text, character by character. */
  ghost predicate EncodesText(bytes: seq<nat>, s: string)
    decreases |s|
  {
    if s == "" then bytes == []
    else exists n :: 0 <= n <= |bytes| && Encodes(bytes[..n], s[0]) && EncodesText(bytes[n..], s[1..])
  }

  /** Offsets count the bytes of the encoded text. */
  lemma {:induction false} BytesExactly(bytes: seq<nat>, s: string)
    requires EncodesText(bytes, s)
    ensures |bytes| == Bytes(s)
    decreases |s|
  {
    hide Encodes, Width;
    if s != "" {
      var n :| 0 <= n <= |bytes| && Encodes(bytes[..n], s[0]) && EncodesText(bytes[n..], s[1..]);
      WidthExactly(s[0]);
      BytesExactly(bytes[n..], s[1..]);
    }
  }

  /** The offset lies between two characters; slicing the text elsewhere is not possible. */
  ghost predicate IsBoundary(s: string, offset: nat) {
    exists k :: 0 <= k <= |s| && Bytes(s[..k]) == offset
  }

  /** The number of characters before a boundary. */
  function CharIndex(s: string, offset: nat): (k: nat)
    ensures k <= |s|
  {
    if s == "" || offset < Width(s[0]) then 0 else 1 + CharIndex(s[1..], offset - Width(s[0]))
  }

  lemma {:induction false} CharIndexOfBytes(s: string, k: nat)
    requires k <= |s|
    ensures CharIndex(s, Bytes(s[..k])) == k
  {
    if k > 0 {
      assert s[..k][1..] == s[1..][..k - 1];
      CharIndexOfBytes(s[1..], k - 1);
    }
  }

  // ---------------------------------------------------------------- lines

  function Breaks(s: string): nat {
    if s == "" then 0 else (if s[0] == '\n' then 1 else 0) + Breaks(s[1..])
  }

  /** Just after the last line break, or the start. */
  function LastLineStart(s: string): (p: nat)
    ensures p <= |s|
  {
    if s == "" then 0 else if s[|s| - 1] == '\n' then |s| else LastLineStart(s[..|s| - 1])
  }

  /** Just after the `n`th line break, counting from 0. */
  function AfterBreak(s: string, n: nat): (p: Option<nat>)
    ensures p.Some? ==> 0 < p.value <= |s|
  {
    if s == "" then None
    else if s[0] == '\n' && n == 0 then Some(1)
    else
      var rest := AfterBreak(s[1..], if s[0] == '\n' then n - 1 else n);
      if rest.None? then None else Some(1 + rest.value)
  }

  /** The first line break at or after a position, or the end. */
  function LineEnd(s: string, from: nat): (e: nat)
    requires from <= |s|
    ensures from <= e <= |s| && (e < |s| ==> s[e] == '\n') && forall i :: from <= i < e ==> s[i] != '\n'
    decreases |s| - from
  {
    if from == |s| || s[from] == '\n' then from else LineEnd(s, from + 1)
  }

  // ---------------------------------------------------------------- the two conversions

  function LineColumn(s: string, offset: nat): (nat, nat) {
    var k := CharIndex(s, if offset < Bytes(s) then offset else Bytes(s));
    (Breaks(s[..k]) + 1, k - LastLineStart(s[..k]) + 1)
  }

  /** The character index of the start of a line. */
  function LineStart(s: string, line: nat): (p: Option<nat>)
    requires line > 0
    ensures p.Some? ==> p.value <= |s|
  {
    if line == 1 then Some(0) else AfterBreak(s, line - 2)
  }

  function OffsetAt(s: string, line: nat, column: nat): Option<nat> {
    if line == 0 || column == 0 then None
    else
      var start := LineStart(s, line);
      if start.None? then None
      else
        var end := LineEnd(s, start.value);
        var k := if start.value + column - 1 < end then start.value + column - 1 else end;
        Some(Bytes(s[..k]))
  }

  // ---------------------------------------------------------------- counting breaks

  lemma {:induction false} BreaksSplit(a: string, b: string)
    ensures Breaks(a + b) == Breaks(a) + Breaks(b)
    decreases |a|
  {
    if a == "" {
      assert a + b == b;
    } else {
      assert (a + b)[0] == a[0] && (a + b)[1..] == a[1..] + b;
      BreaksSplit(a[1..], b);
    }
  }

  lemma {:induction false} NoBreaks(s: string)
    requires forall i :: 0 <= i < |s| ==> s[i] != '\n'
    ensures Breaks(s) == 0
  {
    if s != "" { NoBreaks(s[1..]); }
  }

  /** The break at a position is the one numbered by the breaks before it. */
  lemma {:induction false} AfterBreakAt(s: string, j: nat)
    requires j < |s| && s[j] == '\n'
    ensures AfterBreak(s, Breaks(s[..j])) == Some(j + 1)
    decreases j
  {
    if j > 0 {
      assert s[..j][1..] == s[1..][..j - 1];
      AfterBreakAt(s[1..], j - 1);
    }
  }

  lemma {:induction false} AfterBreakCounts(s: string, n: nat)
    ensures AfterBreak(s, n).Some? <==> n < Breaks(s)
    ensures AfterBreak(s, n).Some? ==>
              s[AfterBreak(s, n).value - 1] == '\n' && Breaks(s[..AfterBreak(s, n).value]) == n + 1
  {
    if s != "" && !(s[0] == '\n' && n == 0) {
      var m := if s[0] == '\n' then n - 1 else n;
      AfterBreakCounts(s[1..], m);
      var rest := AfterBreak(s[1..], m);
      if rest.Some? { assert s[..1 + rest.value][1..] == s[1..][..rest.value]; }
    } else if s != "" {
      assert s[..1][1..] == "";
    }
  }

  /** The current line starts after the last break before the position. */
  lemma {:induction false} CurrentLine(s: string, k: nat)
    requires k <= |s|
    ensures var p := LastLineStart(s[..k]);
            && p <= k && LineStart(s, Breaks(s[..k]) + 1) == Some(p)
            && forall i :: p <= i < k ==> s[i] != '\n'
    decreases k
  {
    if k > 0 {
      assert s[..k] == s[..k - 1] + [s[k - 1]];
      BreaksSplit(s[..k - 1], [s[k - 1]]);
      assert s[..k][..k - 1] == s[..k - 1] && Breaks([s[k - 1]]) == (if s[k - 1] == '\n' then 1 else 0) by { assert [s[k - 1]][1..] == ""; }
      if s[k - 1] == '\n' {
        AfterBreakAt(s, k - 1);
      } else {
        CurrentLine(s, k - 1);
      }
    }
  }

  /** From the start of a line to its end the line stays the same. */
  lemma WithinLine(s: string, line: nat, k: nat)
    requires line > 0 && LineStart(s, line).Some?
    requires LineStart(s, line).value <= k <= LineEnd(s, LineStart(s, line).value)
    ensures Breaks(s[..k]) + 1 == line && LastLineStart(s[..k]) == LineStart(s, line).value
  {
    var p := LineStart(s, line).value;
    if line > 1 { AfterBreakCounts(s, line - 2); }
    assert s[..k] == s[..p] + s[p..k];
    BreaksSplit(s[..p], s[p..k]);
    NoBreaks(s[p..k]);
    CurrentLine(s, k);
  }

  // ---------------------------------------------------------------- round trips

  lemma {:induction false} BytesMonotone(s: string, k: nat)
    requires k <= |s|
    ensures Bytes(s[..k]) <= Bytes(s)
    decreases k
  {
    if k > 0 {
      assert s[..k][1..] == s[1..][..k - 1];
      BytesMonotone(s[1..], k - 1);
    }
  }

  lemma IndexAt(s: string, k: nat)
    requires k <= |s|
    ensures var offset := Bytes(s[..k]);
            LineColumn(s, offset) == (Breaks(s[..k]) + 1, k - LastLineStart(s[..k]) + 1)
  {
    BytesMonotone(s, k);
    CharIndexOfBytes(s, k);
    assert s[..|s|] == s;
  }

  /** The position of a character boundary leads back to it. */
  lemma OffsetRoundTrip(s: string, offset: nat)
    requires IsBoundary(s, offset)
    ensures var (line, column) := LineColumn(s, offset);
            OffsetAt(s, line, column) == Some(offset)
  {
    var k :| 0 <= k <= |s| && Bytes(s[..k]) == offset;
    IndexAt(s, k);
    CurrentLine(s, k);
  }

  /** An offset beyond the end means the end. */
  lemma BeyondTheEnd(s: string, offset: nat)
    requires offset >= Bytes(s)
    ensures LineColumn(s, offset) == LineColumn(s, Bytes(s))
  {
  }

  /** A position names an offset exactly when its line exists and both numbers are positive. */
  lemma PositionDefined(s: string, line: nat, column: nat)
    ensures OffsetAt(s, line, column).Some? <==> 0 < line <= Breaks(s) + 1 && column > 0
  {
    hide Bytes, LineEnd;
    if line > 1 { AfterBreakCounts(s, line - 2); }
  }

  /** That offset has the same line, and the same column up to one past the end of the line. */
  lemma PositionRoundTrip(s: string, line: nat, column: nat)
    requires 0 < line <= Breaks(s) + 1 && column > 0
    ensures OffsetAt(s, line, column).Some? && LineStart(s, line).Some?
    ensures var offset := OffsetAt(s, line, column).value;
            var start := LineStart(s, line).value;
            var length := LineEnd(s, start) - start;
            && IsBoundary(s, offset)
            && LineColumn(s, offset) == (line, if column <= length then column else length + 1)
  {
    hide Bytes, Breaks, AfterBreak, LineColumn, LastLineStart, LineEnd;
    if line > 1 { AfterBreakCounts(s, line - 2); }
    var start := LineStart(s, line).value;
    var end := LineEnd(s, start);
    var k := if start + column - 1 < end then start + column - 1 else end;
    IndexAt(s, k);
    WithinLine(s, line, k);
    assert OffsetAt(s, line, column) == Some(Bytes(s[..k]));
  }
}
