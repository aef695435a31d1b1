/**
 Text as the stream code handles it: lines, trimming and UTF-8 size (src/stream.ts:48-121,
 src/anthropic-sse-to-openai.ts:197-246). Decoded wire text is a sequence of Unicode scalar values; a
 JavaScript string value is a sequence of UTF-16 code units.
 */
module Text {
  const NEWLINE: char := '\n'

  /** The characters that String.prototype.trim removes. */
  predicate IsSpace(c: char) {
    || '\U{0009}' <= c <= '\U{000D}'
    || c == ' ' || c == '\U{00A0}' || c == '\U{1680}'
    || '\U{2000}' <= c <= '\U{200A}'
    || c == '\U{2028}' || c == '\U{2029}' || c == '\U{202F}' || c == '\U{205F}' || c == '\U{3000}' || c == '\U{FEFF}'
  }

  function TrimStart(s: string): string {
    if s != "" && IsSpace(s[0]) then TrimStart(s[1..]) else s
  }

  function TrimEnd(s: string): string {
    if s != "" && IsSpace(s[|s| - 1]) then TrimEnd(s[..|s| - 1]) else s
  }

  function Trim(s: string): string { TrimEnd(TrimStart(s)) }

  predicate AllSpace(s: string) { forall i :: 0 <= i < |s| ==> IsSpace(s[i]) }

  /** Trimming takes exactly the white space at both ends. */
  lemma TrimTakesTheEnds(s: string) returns (a: string, b: string)
    ensures AllSpace(a) && AllSpace(b) && s == a + Trim(s) + b
    ensures Trim(s) == "" || Tight(Trim(s))
  {
    var rest;
    a, rest := StartTrimmed(s);
    b := EndTrimmed(TrimStart(s));
    if Trim(s) != "" { assert Trim(s)[0] == TrimStart(s)[0]; }
  }

  lemma {:induction false} StartTrimmed(s: string) returns (a: string, rest: string)
    ensures AllSpace(a) && rest == TrimStart(s) && s == a + rest && (rest != "" ==> !IsSpace(rest[0]))
  {
    if s != "" && IsSpace(s[0]) {
      a, rest := StartTrimmed(s[1..]);
      a := [s[0]] + a;
    } else {
      a, rest := "", s;
    }
  }

  lemma {:induction false} EndTrimmed(s: string) returns (b: string)
    ensures AllSpace(b) && s == TrimEnd(s) + b && (TrimEnd(s) != "" ==> !IsSpace(TrimEnd(s)[|TrimEnd(s)| - 1]))
  {
    if s != "" && IsSpace(s[|s| - 1]) {
      b := EndTrimmed(s[..|s| - 1]);
      b := b + [s[|s| - 1]];
    } else {
      b := "";
    }
  }

  /** Neither end is white space, so trimming leaves it alone. */
  predicate Tight(s: string) { s != "" && !IsSpace(s[0]) && !IsSpace(s[|s| - 1]) }

  lemma TrimKeepsTight(s: string)
    requires Tight(s)
    ensures Trim(s) == s && Trim(" " + s) == s
  {
    assert (" " + s)[1..] == s;
    assert TrimStart(" " + s) == TrimStart(s) == s;
  }

  /** JavaScript strings are UTF-16 code units; surrogates need not be paired. */
  type CodeUnit = u: int | 0 <= u < 0x1_0000

  predicate High(u: CodeUnit) { 0xD800 <= u < 0xDC00 }

  predicate Low(u: CodeUnit) { 0xDC00 <= u < 0xE000 }

  /** The UTF-8 length of one unit alone; an unpaired surrogate is encoded as U+FFFD. */
  function UnitBytes(u: CodeUnit): nat { if u < 0x80 then 1 else if u < 0x800 then 2 else 3 }

  /** TextEncoder: a surrogate pair is one four-byte character. */
  function Utf8Length(s: seq<CodeUnit>): nat {
    if |s| == 0 then 0
    else if |s| >= 2 && High(s[0]) && Low(s[1]) then 4 + Utf8Length(s[2..])
    else UnitBytes(s[0]) + Utf8Length(s[1..])
  }

  /** One to three bytes for a unit of its own, a lone surrogate as U+FFFD, and four for a pair. */
  lemma Utf8Widths(u: CodeUnit, v: CodeUnit)
    ensures Utf8Length([u]) == if u <= 0x7F then 1 else if u <= 0x7FF then 2 else 3
    ensures 0xD800 <= u <= 0xDBFF && 0xDC00 <= v <= 0xDFFF ==> Utf8Length([u, v]) == 4
    ensures Utf8Length([]) == 0
  {
    assert [u][1..] == [] && [u, v][2..] == [];
  }

  /** The boundary between the two parts falls inside a surrogate pair. */
  predicate CutsPair(a: seq<CodeUnit>, b: seq<CodeUnit>) {
    |a| > 0 && |b| > 0 && High(a[|a| - 1]) && Low(b[0])
  }

  lemma Utf8LengthOfUnit(u: CodeUnit, b: seq<CodeUnit>)
    ensures Utf8Length([u]) == UnitBytes(u)
    ensures UnitBytes(u) + Utf8Length(b) == Utf8Length([u] + b) + if |b| > 0 && High(u) && Low(b[0]) then 2 else 0
  {
    assert ([u] + b)[1..] == b && [u][1..] == [];
    if |b| > 0 && High(u) && Low(b[0]) {
      assert ([u] + b)[2..] == b[1..];
    }
  }

  /** Two parts measured apart are two bytes too long exactly when the cut splits a pair. */
  lemma {:induction false} Utf8LengthOfParts(a: seq<CodeUnit>, b: seq<CodeUnit>)
    ensures Utf8Length(a) + Utf8Length(b) == Utf8Length(a + b) + if CutsPair(a, b) then 2 else 0
  {
    hide UnitBytes;
    if |a| == 0 {
      assert a + b == b;
    } else if |a| >= 2 && High(a[0]) && Low(a[1]) {
      Utf8LengthOfParts(a[2..], b);
      assert (a + b)[2..] == a[2..] + b;
    } else if |a| >= 2 {
      Utf8LengthOfParts(a[1..], b);
      assert (a + b)[1..] == a[1..] + b;
    } else {
      Utf8LengthOfUnit(a[0], b);
      assert a == [a[0]] && CutsPair(a, b) == (|b| > 0 && High(a[0]) && Low(b[0]));
    }
  }

  /** An ASCII literal as JavaScript text. */
  function Ascii(s: string): seq<CodeUnit> {
    seq(|s|, i requires 0 <= i < |s| => if s[i] < '\U{0080}' then s[i] as int else 0xFFFD)
  }

  lemma AsciiIsTheSame(s: string)
    ensures |Ascii(s)| == |s| && forall i :: 0 <= i < |s| && s[i] as int < 0x80 ==> Ascii(s)[i] == s[i] as int
  {
  }

  predicate OneLine(s: string) { NEWLINE !in s }

  /** What split("\n") and pop() leave: the finished lines, and the line still open. */
  datatype Lines = Lines(full: seq<string>, open: string)

  function Split(s: string): Lines {
    if |s| == 0 then Lines([], "")
    else
      var l := Split(s[..|s| - 1]);
      var c := s[|s| - 1];
      if c == NEWLINE then Lines(l.full + [l.open], "") else Lines(l.full, l.open + [c])
  }

  function Concat(pieces: seq<string>): string {
    if |pieces| == 0 then "" else Concat(pieces[..|pieces| - 1]) + pieces[|pieces| - 1]
  }

  lemma SplitSnoc(s: string, c: char)
    ensures Split(s + [c])
         == if c == NEWLINE then Lines(Split(s).full + [Split(s).open], "") else Lines(Split(s).full, Split(s).open + [c])
  {
    assert (s + [c])[..|s|] == s;
  }

  lemma {:induction false} SplitsAreLines(s: string)
    ensures OneLine(Split(s).open)
    ensures forall l :: l in Split(s).full ==> OneLine(l)
  {
    if |s| > 0 { SplitsAreLines(s[..|s| - 1]); }
  }

  lemma {:induction false} SplitOneLine(s: string)
    requires OneLine(s)
    ensures Split(s) == Lines([], s)
  {
    if |s| > 0 {
      SplitOneLine(s[..|s| - 1]);
      assert s[..|s| - 1] + [s[|s| - 1]] == s;
    }
  }

  /** Splitting resumes from the open line: why both readers may drop everything before it. */
  lemma {:induction false} SplitResumes(a: string, b: string)
    ensures Split(a + b).full == Split(a).full + Split(Split(a).open + b).full
    ensures Split(a + b).open == Split(Split(a).open + b).open
    decreases |b|
  {
    var open := Split(a).open;
    if |b| == 0 {
      assert a + b == a && open + b == open;
      SplitsAreLines(a);
      SplitOneLine(open);
    } else {
      var b', c := b[..|b| - 1], b[|b| - 1];
      SplitResumes(a, b');
      assert a + b == (a + b') + [c] && open + b == (open + b') + [c];
      SplitSnoc(a + b', c);
      SplitSnoc(open + b', c);
    }
  }

  lemma SplitLine(line: string, rest: string)
    requires OneLine(line)
    ensures Split(line + "\n" + rest) == Lines([line] + Split(rest).full, Split(rest).open)
  {
    SplitOneLine(line);
    SplitSnoc(line, NEWLINE);
    SplitResumes(line + "\n", rest);
    assert "" + rest == rest;
  }
}
