/**
 * Characters and strings with the meaning Python's `str` methods give them:
 * whitespace as `str.isspace()` (and the regex class `\s`) sees it, `strip`,
 * `find`, `startswith`, `splitlines`, `join`, `isdigit` and `int()` on ASCII digits
 * (with the underscores `int()` allows between digits).
 */
module Chars {

  /** The line boundaries of `str.splitlines()`; "\r\n" counts as one boundary. */
  const LineBreaks: set<char> := {
    '\n', '\r', '\U{0B}', '\U{0C}', '\U{1C}', '\U{1D}', '\U{1E}', '\U{85}', '\U{2028}', '\U{2029}'
  }

  const FullWidthSpace: char := '\U{3000}'

  /** Python's `str.isspace()`; the regex class `\s` matches the same characters on str patterns. */
  predicate IsSpace(c: char) {
    || c == ' ' || '\t' <= c <= '\r' || '\U{1C}' <= c <= '\U{1F}'
    || c == '\U{85}' || c == '\U{A0}' || c == '\U{1680}' || '\U{2000}' <= c <= '\U{200A}'
    || c == '\U{2028}' || c == '\U{2029}' || c == '\U{202F}' || c == '\U{205F}' || c == '\U{3000}'
  }

  /** `not s.strip()`: every character is whitespace (the empty string included). */
  predicate IsBlank(s: string) {
    forall i :: 0 <= i < |s| ==> IsSpace(s[i])
  }

  // ---------------------------------------------------------------- strip

  /** `s.lstrip()`: drop the leading whitespace. */
  function LStrip(s: string): (r: string)
    ensures |r| <= |s|
    ensures r != [] ==> !IsSpace(r[0])
  {
    if s != [] && IsSpace(s[0]) then LStrip(s[1..]) else s
  }

  /** What `lstrip` drops is whitespace, and what it keeps is the rest of `s`. */
  lemma {:induction false} LStripDropsSpaces(s: string)
    ensures forall i :: 0 <= i < |s| - |LStrip(s)| ==> IsSpace(s[i])
    ensures LStrip(s) == s[|s| - |LStrip(s)|..]
  {
    if s != [] && IsSpace(s[0]) {
      LStripDropsSpaces(s[1..]);
      assert s[1..][|s| - 1 - |LStrip(s)|..] == s[|s| - |LStrip(s)|..];
      forall i | 0 < i < |s| - |LStrip(s)| ensures IsSpace(s[i]) {
        assert s[i] == s[1..][i - 1];
      }
    }
  }

  /** `s.rstrip()`: drop the trailing whitespace. */
  function RStrip(s: string): (r: string)
    ensures |r| <= |s|
    ensures r != [] ==> !IsSpace(r[|r| - 1])
  {
    if s != [] && IsSpace(s[|s| - 1]) then RStrip(s[..|s| - 1]) else s
  }

  /** What `rstrip` drops is whitespace, and what it keeps is the start of `s`. */
  lemma {:induction false} RStripDropsSpaces(s: string)
    ensures forall i :: |RStrip(s)| <= i < |s| ==> IsSpace(s[i])
    ensures RStrip(s) == s[..|RStrip(s)|]
  {
    if s != [] && IsSpace(s[|s| - 1]) {
      RStripDropsSpaces(s[..|s| - 1]);
      assert s[..|s| - 1][..|RStrip(s)|] == s[..|RStrip(s)|];
      forall i | |RStrip(s)| <= i < |s| - 1 ensures IsSpace(s[i]) {
        assert s[i] == s[..|s| - 1][i];
      }
    }
  }

  /** `s.strip()`. */
  function Strip(s: string): string {
    RStrip(LStrip(s))
  }

  /** `s.lstrip(chars)` for an explicit set of characters. */
  function LStripChars(s: string, cs: set<char>): (r: string)
    ensures |r| <= |s|
    ensures r != [] ==> r[0] !in cs
  {
    if s != [] && s[0] in cs then LStripChars(s[1..], cs) else s
  }

  /** What `lstrip(chars)` drops is made of those characters, and what it keeps is the rest of `s`. */
  lemma {:induction false} LStripCharsDrops(s: string, cs: set<char>)
    ensures forall i :: 0 <= i < |s| - |LStripChars(s, cs)| ==> s[i] in cs
    ensures LStripChars(s, cs) == s[|s| - |LStripChars(s, cs)|..]
  {
    if s != [] && s[0] in cs {
      LStripCharsDrops(s[1..], cs);
      assert s[1..][|s| - 1 - |LStripChars(s, cs)|..] == s[|s| - |LStripChars(s, cs)|..];
      forall i | 0 < i < |s| - |LStripChars(s, cs)| ensures s[i] in cs {
        assert s[i] == s[1..][i - 1];
      }
    }
  }

  /** `s.rstrip(chars)` for an explicit set of characters. */
  function RStripChars(s: string, cs: set<char>): (r: string)
    ensures |r| <= |s|
    ensures r != [] ==> r[|r| - 1] !in cs
  {
    if s != [] && s[|s| - 1] in cs then RStripChars(s[..|s| - 1], cs) else s
  }

  /** What `rstrip(chars)` drops is made of those characters, and what it keeps is the start of `s`. */
  lemma {:induction false} RStripCharsDrops(s: string, cs: set<char>)
    ensures forall i :: |RStripChars(s, cs)| <= i < |s| ==> s[i] in cs
    ensures RStripChars(s, cs) == s[..|RStripChars(s, cs)|]
  {
    if s != [] && s[|s| - 1] in cs {
      RStripCharsDrops(s[..|s| - 1], cs);
      assert s[..|s| - 1][..|RStripChars(s, cs)|] == s[..|RStripChars(s, cs)|];
      forall i | |RStripChars(s, cs)| <= i < |s| - 1 ensures s[i] in cs {
        assert s[i] == s[..|s| - 1][i];
      }
    }
  }

  /** `s.strip(chars)`. */
  function StripChars(s: string, cs: set<char>): string {
    RStripChars(LStripChars(s, cs), cs)
  }

  /** `s.strip()` is empty exactly when `s` is blank. */
  lemma StripEmptyIffBlank(s: string)
    ensures Strip(s) == [] <==> IsBlank(s)
  {
    var l := LStrip(s);
    LStripDropsSpaces(s);
    RStripDropsSpaces(l);
    if Strip(s) == [] {
      // a non-empty `l` starts with a non-space, which `RStrip` would have kept
      assert l == [];
    } else {
      var k := |s| - |l|;
      assert l[0] == s[k] && !IsSpace(s[k]);
    }
  }

  /** A string that neither starts nor ends with whitespace is its own strip. */
  lemma StripTrimmed(s: string)
    requires s != [] ==> !IsSpace(s[0]) && !IsSpace(s[|s| - 1])
    ensures Strip(s) == s
  {
  }

  /** Stripping twice is stripping once. */
  lemma StripIdempotent(s: string)
    ensures Strip(Strip(s)) == Strip(s)
  {
    var l := LStrip(s);
    var r := Strip(s);
    if r != [] {
      RStripDropsSpaces(l);
      assert r[0] == l[0];
      StripTrimmed(r);
    }
  }

  // ---------------------------------------------------------------- prefixes and search

  /** `s.startswith(p)`. */
  predicate StartsWith(s: string, p: string) {
    |p| <= |s| && s[..|p|] == p
  }

  predicate OccursAt(s: string, pat: string, j: int) {
    0 <= j && j + |pat| <= |s| && s[j..j + |pat|] == pat
  }

  /** `s.find(pat)`: the first position where `pat` occurs, or -1. */
  function Find(s: string, pat: string): (r: int)
    ensures r == -1 || OccursAt(s, pat, r)
    ensures r == -1 ==> forall j :: !OccursAt(s, pat, j)
    ensures forall j :: 0 <= j < r ==> !OccursAt(s, pat, j)
  {
    FindFrom(s, pat, 0)
  }

  function FindFrom(s: string, pat: string, from: nat): (r: int)
    requires from <= |s|
    requires forall j :: 0 <= j < from ==> !OccursAt(s, pat, j)
    ensures r == -1 || (from <= r && OccursAt(s, pat, r))
    ensures r == -1 ==> forall j :: !OccursAt(s, pat, j)
    ensures forall j :: 0 <= j < r ==> !OccursAt(s, pat, j)
    decreases |s| - from
  {
    if OccursAt(s, pat, from) then from
    else if from + |pat| >= |s| then -1
    else FindFrom(s, pat, from + 1)
  }

  /** `pat in s`. */
  predicate Contains(s: string, pat: string) {
    Find(s, pat) >= 0
  }

  /** The length of the longest prefix of `s` made of characters of `cs`. */
  function SpanOf(s: string, cs: set<char>): (n: nat)
    ensures n <= |s|
    ensures forall i :: 0 <= i < n ==> s[i] in cs
    ensures n < |s| ==> s[n] !in cs
  {
    if s != [] && s[0] in cs then 1 + SpanOf(s[1..], cs) else 0
  }

  // ---------------------------------------------------------------- sequences of strings

  /** A non-empty sequence is its front followed by its last element. */
  lemma SnocInit<T>(xs: seq<T>)
    requires xs != []
    ensures xs[..|xs| - 1] + [xs[|xs| - 1]] == xs
  {
  }

  lemma AppendEmpty<T>(a: seq<T>)
    ensures a + [] == a
  {
  }

  lemma AppendAssoc<T>(a: seq<T>, b: seq<T>, c: seq<T>)
    ensures a + (b + c) == (a + b) + c
  {
  }

  lemma Split3<T>(t: seq<T>, i: nat, j: nat)
    requires i <= j <= |t|
    ensures t == t[..i] + t[i..j] + t[j..]
  {
  }

  /** `"".join(ss)`. */
  function Concat(ss: seq<string>): string {
    if ss == [] then [] else ss[0] + Concat(ss[1..])
  }

  lemma {:induction false} ConcatAppend(a: seq<string>, b: seq<string>)
    ensures Concat(a + b) == Concat(a) + Concat(b)
  {
    if a == [] {
      assert a + b == b;
    } else {
      assert (a + b)[0] == a[0] && (a + b)[1..] == a[1..] + b;
      ConcatAppend(a[1..], b);
    }
  }

  lemma ConcatSingle(s: string)
    ensures Concat([s]) == s
  {
    assert [s][1..] == [];
    assert s + [] == s;
  }

  lemma ConcatSnoc(ss: seq<string>, s: string)
    ensures Concat(ss + [s]) == Concat(ss) + s
  {
    ConcatAppend(ss, [s]);
    assert Concat([s]) == s + Concat([]);
    assert s + [] == s;
  }

  /**
   * The pieces a left-to-right scan of `t` closes, one after every character of
   * `marks` (the mark stays at the end of its piece), and the unterminated rest.
   */
  function CutAfter(t: string, marks: set<char>): (seq<string>, string) {
    if t == [] then ([], [])
    else
      var (pieces, buf) := CutAfter(t[..|t| - 1], marks);
      var b := buf + [t[|t| - 1]];
      if t[|t| - 1] in marks then (pieces + [b], []) else (pieces, b)
  }

  /** A piece that ends with a mark and holds no other mark. */
  predicate ClosedPiece(p: string, marks: set<char>) {
    |p| > 0 && p[|p| - 1] in marks && forall i :: 0 <= i < |p| - 1 ==> p[i] !in marks
  }

  predicate NoMark(s: string, marks: set<char>) {
    forall i :: 0 <= i < |s| ==> s[i] !in marks
  }

  /** The pieces and the rest concatenate back to `t`; pieces are closed; the rest holds no mark. */
  lemma {:induction false} CutAfterParts(t: string, marks: set<char>)
    ensures var (pieces, rest) := CutAfter(t, marks);
      && Concat(pieces) + rest == t
      && (forall i :: 0 <= i < |pieces| ==> ClosedPiece(pieces[i], marks))
      && NoMark(rest, marks)
  {
    if t != [] {
      var t0 := t[..|t| - 1];
      CutAfterParts(t0, marks);
      var (pieces, buf) := CutAfter(t0, marks);
      var c := t[|t| - 1];
      assert t == t0 + [c];
      if c in marks {
        ConcatSnoc(pieces, buf + [c]);
      }
    }
  }

  /** `sep.join(ss)`. */
  function Join(sep: string, ss: seq<string>): string {
    if ss == [] then []
    else if |ss| == 1 then ss[0]
    else ss[0] + sep + Join(sep, ss[1..])
  }

  /** The index of the first line boundary of `t`, or |t|. */
  function LineEnd(t: string): (k: nat)
    ensures k <= |t|
    ensures forall i :: 0 <= i < k ==> t[i] !in LineBreaks
    ensures k < |t| ==> t[k] in LineBreaks
  {
    if t == [] || t[0] in LineBreaks then 0 else 1 + LineEnd(t[1..])
  }

  /** A line boundary ("\r\n" included) is whitespace. */
  lemma BoundaryIsBlank(t: string, k: nat, skip: nat)
    requires k < |t| && t[k] in LineBreaks
    requires skip == 1 || (skip == 2 && k + 1 < |t| && t[k + 1] == '\n')
    ensures IsBlank(t[k..k + skip])
  {
    assert forall c :: c in LineBreaks ==> IsSpace(c);
  }

  /** `t.splitlines()`: the lines of `t` without their boundaries; a final boundary opens no extra line. */
  function SplitLines(t: string): (lines: seq<string>)
    ensures forall i, j :: 0 <= i < |lines| && 0 <= j < |lines[i]| ==> lines[i][j] !in LineBreaks
    decreases |t|
  {
    if t == [] then []
    else
      var k := LineEnd(t);
      if k == |t| then [t]
      else
        var skip := if t[k] == '\r' && k + 1 < |t| && t[k + 1] == '\n' then 2 else 1;
        [t[..k]] + SplitLines(t[k + skip..])
  }

  // ---------------------------------------------------------------- digits and case

  predicate IsAsciiDigit(c: char) {
    '0' <= c <= '9'
  }

  /** `s.isdigit()` restricted to ASCII digits. */
  predicate IsAsciiDigits(s: string) {
    |s| > 0 && forall i :: 0 <= i < |s| ==> IsAsciiDigit(s[i])
  }

  /** `int(s)` for a string of ASCII digits. */
  function DecimalValue(s: string): (n: nat)
    requires forall i :: 0 <= i < |s| ==> IsAsciiDigit(s[i])
  {
    if s == [] then 0
    else
      assert IsAsciiDigit(s[|s| - 1]);
      10 * DecimalValue(s[..|s| - 1]) + (s[|s| - 1] as int - '0' as int)
  }

  /** ASCII digits in which single underscores may separate two digits, as `int()` reads them. */
  predicate DigitRun(b: string) {
    && b != [] && DigitsOrUnderscores(b) && IsAsciiDigit(b[0]) && IsAsciiDigit(b[|b| - 1])
    && forall i :: 0 <= i < |b| - 1 && b[i] == '_' ==> IsAsciiDigit(b[i + 1])
  }

  predicate DigitsOrUnderscores(b: string) {
    forall i :: 0 <= i < |b| ==> IsAsciiDigit(b[i]) || b[i] == '_'
  }

  /** The number the digits of `b` spell, underscores skipped. */
  function RunValue(b: string): nat
    requires DigitsOrUnderscores(b)
  {
    if b == [] then 0
    else
      assert DigitsOrUnderscores(b[..|b| - 1]);
      if b[|b| - 1] == '_' then RunValue(b[..|b| - 1])
      else
        assert IsAsciiDigit(b[|b| - 1]);
        10 * RunValue(b[..|b| - 1]) + (b[|b| - 1] as int - '0' as int)
  }

  /** A string of ASCII digits is a digit run, with the value `DecimalValue` gives it. */
  lemma {:induction false} RunValueAscii(s: string)
    requires forall i :: 0 <= i < |s| ==> IsAsciiDigit(s[i])
    ensures s != [] ==> DigitRun(s)
    ensures RunValue(s) == DecimalValue(s)
  {
    if s != [] {
      RunValueAscii(s[..|s| - 1]);
    }
  }

  /** `c.lower()` on ASCII letters; every other character is left alone. */
  function AsciiLowerChar(c: char): char {
    if 'A' <= c <= 'Z' then (c as int + 32) as char else c
  }

  function AsciiLower(s: string): (r: string)
    ensures |r| == |s|
    ensures forall i :: 0 <= i < |s| ==> r[i] == AsciiLowerChar(s[i])
  {
    if s == [] then [] else [AsciiLowerChar(s[0])] + AsciiLower(s[1..])
  }
}
