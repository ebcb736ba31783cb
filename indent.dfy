/**
 * Normalising the paragraph indentation of a chapter file
 * (scripts/normalize_chapter_indent.py): every line keeps its place, blank lines
 * become empty, chapter titles lose all indentation, and every other line is
 * indented with exactly two ideographic spaces.
 */
module Indent {
  import opened Results
  import opened Chars
  import opened Chapters

  // ---------------------------------------------------------------- chapter titles

  /**
   * Which title test is meant.  `AsWritten` is `CH_TITLE_RE` with its `\b`
   * after the kind; `Intended` drops the word boundary, so that a title glued to
   * its name ("第一章初入", the example the script's own documentation gives)
   * counts as one, as it does for the chapter splitter's `_CHAPTER_RE`.
   */
  datatype TitleRule = AsWritten | Intended

  /**
   * A character the regex class `\w` matches: ASCII letters, digits and "_",
   * the CJK ideographs, full-width letters and digits, kana and hangul.
   */
  predicate IsWordChar(c: char) {
    || '0' <= c <= '9' || 'a' <= c <= 'z' || 'A' <= c <= 'Z' || c == '_'
    || '\U{3400}' <= c <= '\U{4DBF}' || '\U{4E00}' <= c <= '\U{9FFF}' || '\U{F900}' <= c <= '\U{FAFF}'
    || c == '\U{3007}' || '\U{3041}' <= c <= '\U{3096}' || '\U{30A1}' <= c <= '\U{30FA}'
    || '\U{AC00}' <= c <= '\U{D7A3}'
    || '\U{FF10}' <= c <= '\U{FF19}' || '\U{FF21}' <= c <= '\U{FF3A}' || '\U{FF41}' <= c <= '\U{FF5A}'
  }

  /**
   * `is_chapter_title`: `CH_TITLE_RE.match(line)` with the pattern
   * `^\s*第\s*([0-9]+|[零一二三四五六七八九十百千万两〇○]+)\s*(章|回|节)\b`.
   * As in the splitter, the classes next to each other do not overlap and the
   * match is one left-to-right scan; only a prefix of the line has to match.
   */
  predicate IsChapterTitle(rule: TitleRule, line: string) {
    TitleAt(rule, LStrip(line))
  }

  /** The pattern after the leading whitespace matches. */
  predicate TitleAt(rule: TitleRule, t: string) {
    TitleEnd(rule, t).Some?
  }

  /** Where the match of the pattern ends, after the leading whitespace: "第", whitespace, then the number. */
  function TitleEnd(rule: TitleRule, t: string): Option<nat> {
    if t == [] || t[0] != '第' then None
    else
      var a := t[1..];
      var u := LStrip(a);
      var e := NumberEnd(rule, u);
      if e.None? then None else Some(1 + (|a| - |u|) + e.value)
  }

  predicate NumberAt(rule: TitleRule, u: string) {
    NumberEnd(rule, u).Some?
  }

  /** The number group, whitespace, then the kind. */
  function NumberEnd(rule: TitleRule, u: string): Option<nat> {
    var n := SpanOf(u, NumberClass(u));
    var w := u[n..];
    var v := LStrip(w);
    if n > 0 && KindAt(rule, v) then Some(n + (|w| - |v|) + 1) else None
  }

  /** The kind and, as written, the word boundary after it. */
  predicate KindAt(rule: TitleRule, v: string) {
    v != [] && v[0] in ChapterKinds && (rule == Intended || |v| == 1 || !IsWordChar(v[1]))
  }

  // ---------------------------------------------------------------- one line

  /** `raw.rstrip("\n")`. */
  function Chomp(raw: string): string {
    RStripChars(raw, {'\n'})
  }

  /**
   * `re.match(r"^([ 　]+)(.*)$", line)`: group 2 when the line starts with
   * spaces and no "\n" follows them (`.` does not match it), else the line
   * itself.  `$` would also match before a final "\n"; the lines this is
   * applied to have had theirs removed.
   */
  function Body(line: string): string {
    var k := SpanOf(line, {' ', FullWidthSpace});
    if k > 0 && NoNewline(line[k..]) then line[k..] else line
  }

  /**
   * A title test.  The rewriting below is stated for any title test; the
   * script's is `TitleOf(AsWritten)`.
   */
  type TitleTest = string -> bool

  function TitleOf(rule: TitleRule): TitleTest {
    line => IsChapterTitle(rule, line)
  }

  /** The body of the loop in `normalize_lines`: the line that one input line becomes. */
  function NormalizeLine(isTitle: TitleTest, raw: string): string {
    var line := Chomp(raw);
    if IsBlank(line) then ""
    else
      var line := LStripChars(line, {'\t'});
      if isTitle(line) then Strip(line)
      else [FullWidthSpace, FullWidthSpace] + LStrip(Body(line))
  }

  /** The loop body as a function on lines, for a given title test. */
  function LineStep(isTitle: TitleTest): string -> string {
    raw => NormalizeLine(isTitle, raw)
  }

  /** `[f(l) for l in lines]`. */
  function MapLines(f: string -> string, lines: seq<string>): (out: seq<string>)
    ensures |out| == |lines|
  {
    seq(|lines|, i requires 0 <= i < |lines| => f(lines[i]))
  }

  /** What `normalize_lines` returns. */
  function NormalizeAll(isTitle: TitleTest, lines: seq<string>): (out: seq<string>)
    ensures |out| == |lines|
  {
    MapLines(LineStep(isTitle), lines)
  }

  /** `normalize_lines`: one output line per input line, in order. */
  method NormalizeLines(isTitle: TitleTest, lines: seq<string>) returns (out: seq<string>)
    ensures out == NormalizeAll(isTitle, lines)
  {
    out := [];
    for i := 0 to |lines|
      invariant out == MapLines(LineStep(isTitle), lines[..i])
    {
      MapLinesSnoc(LineStep(isTitle), lines, i);
      out := out + [NormalizeLine(isTitle, lines[i])];
    }
    assert lines[..|lines|] == lines;
  }

  /** One more input line adds its image at the end. */
  lemma MapLinesSnoc(f: string -> string, lines: seq<string>, i: nat)
    requires i < |lines|
    ensures MapLines(f, lines[..i + 1]) == MapLines(f, lines[..i]) + [f(lines[i])]
  {
    var a, b := MapLines(f, lines[..i + 1]), MapLines(f, lines[..i]) + [f(lines[i])];
    assert |a| == |b|;
    forall j | 0 <= j < |a| ensures a[j] == b[j] {
      assert lines[..i + 1][j] == lines[j];
      if j < i {
        assert lines[..i][j] == lines[j];
      }
    }
  }

  // ---------------------------------------------------------------- string facts

  /** A blank string strips to nothing. */
  lemma {:induction false} LStripBlank(z: string)
    requires IsBlank(z)
    ensures LStrip(z) == []
  {
    if z != [] {
      assert IsSpace(z[0]);
      assert IsBlank(z[1..]) by {
        forall i | 0 <= i < |z[1..]| ensures IsSpace(z[1..][i]) {
          assert z[1..][i] == z[i + 1];
        }
      }
      LStripBlank(z[1..]);
    }
  }

  /** A string that ends in a non-space keeps that end when left-stripped. */
  lemma LStripKeepsEnd(a: string)
    requires a != [] && !IsSpace(a[|a| - 1])
    ensures LStrip(a) != [] && LStrip(a)[|LStrip(a)| - 1] == a[|a| - 1]
  {
    LStripDropsSpaces(a);
  }

  /** What follows a string that is not all whitespace survives its left strip. */
  lemma {:induction false} LStripAppend(a: string, z: string)
    requires LStrip(a) != []
    ensures LStrip(a + z) == LStrip(a) + z
  {
    var c := a[0];
    assert (a + z)[0] == c;
    if IsSpace(c) {
      var t := a[1..];
      assert LStrip(a) == LStrip(t);
      assert (a + z)[1..] == t + z;
      assert LStrip(a + z) == LStrip(t + z);
      LStripAppend(t, z);
    } else {
      assert LStrip(a) == a;
    }
  }

  /** The longest run of `cs` in `x + z`. */
  lemma {:induction false} SpanAppend(x: string, z: string, cs: set<char>)
    ensures SpanOf(x, cs) < |x| ==> SpanOf(x + z, cs) == SpanOf(x, cs)
    ensures SpanOf(x, cs) == |x| ==> SpanOf(x + z, cs) == |x| + SpanOf(z, cs)
  {
    if x == [] {
      assert x + z == z;
    } else if x[0] in cs {
      assert (x + z)[1..] == x[1..] + z;
      SpanAppend(x[1..], z, cs);
    }
  }

  /** Stripping characters of `cs` off the front ignores a prefix made of them. */
  lemma {:induction false} LStripCharsAppend(w: string, s: string, cs: set<char>)
    requires forall i :: 0 <= i < |w| ==> w[i] in cs
    ensures LStripChars(w + s, cs) == LStripChars(s, cs)
  {
    if w == [] {
      assert w + s == s;
    } else {
      assert (w + s)[1..] == w[1..] + s;
      LStripCharsAppend(w[1..], s, cs);
    }
  }

  /** Stripping characters of `cs` off the end stops at the last one that is not in it. */
  lemma {:induction false} RStripCharsAppend(w: string, s: string, cs: set<char>)
    ensures RStripChars(s, cs) != [] ==> RStripChars(w + s, cs) == w + RStripChars(s, cs)
    ensures RStripChars(s, cs) == [] ==> RStripChars(w + s, cs) == RStripChars(w, cs)
  {
    if s == [] {
      assert w + s == w;
    } else if s[|s| - 1] in cs {
      assert (w + s)[..|w + s| - 1] == w + s[..|s| - 1];
      RStripCharsAppend(w, s[..|s| - 1], cs);
    }
  }

  /** A non-blank string stays non-blank when some of its leading characters are dropped. */
  lemma LStripCharsNonBlank(line: string, cs: set<char>)
    requires !IsBlank(line) && forall c :: c in cs ==> IsSpace(c)
    ensures !IsBlank(LStripChars(line, cs))
  {
    var r := LStripChars(line, cs);
    LStripCharsDrops(line, cs);
    var d := |line| - |r|;
    var i :| 0 <= i < |line| && !IsSpace(line[i]);
    assert i >= d && r[i - d] == line[i];
  }

  /** `lstrip` ignores whitespace that was already taken off the front. */
  lemma {:induction false} LStripCharsLStrip(line: string, cs: set<char>)
    requires forall c :: c in cs ==> IsSpace(c)
    ensures LStrip(LStripChars(line, cs)) == LStrip(line)
  {
    if line != [] && line[0] in cs {
      var t := line[1..];
      assert IsSpace(line[0]);
      assert LStripChars(line, cs) == LStripChars(t, cs);
      assert LStrip(line) == LStrip(t);
      LStripCharsLStrip(t, cs);
    } else {
      assert LStripChars(line, cs) == line;
    }
  }

  /** The regex's spaces are whitespace, so what is left of the line strips like the line. */
  lemma BodyLStrip(line: string)
    ensures LStrip(Body(line)) == LStrip(line)
  {
    var k := SpanOf(line, {' ', FullWidthSpace});
    if k > 0 && NoNewline(line[k..]) {
      assert line == line[..k] + line[k..];
      LStripSpacesFirst(line[..k], line[k..]);
    }
  }

  /** A suffix of `x + z` that starts inside `x`. */
  lemma SliceAppend<T>(x: seq<T>, z: seq<T>, n: nat)
    requires n <= |x|
    ensures (x + z)[n..] == x[n..] + z
  {
  }

  /** No character of a number group is whitespace. */
  lemma NumberCharsNotSpace(c: char)
    requires c in AsciiDigitChars || c in CnNumeralChars
    ensures !IsSpace(c)
  {
  }

  /** A number group does not start in whitespace. */
  lemma NoNumberInBlank(z: string, u: string)
    requires IsBlank(z)
    ensures SpanOf(z, NumberClass(u)) == 0
  {
    if z != [] && z[0] in NumberClass(u) {
      NumberCharsNotSpace(z[0]);
    }
  }

  // ---------------------------------------------------------------- titles and trailing whitespace

  /** After the number: whitespace following the kind does not matter. */
  lemma KindAtPrefix(rule: TitleRule, b: string, z: string)
    requires b != [] && !IsSpace(b[|b| - 1]) && IsBlank(z)
    requires KindAt(rule, LStrip(b + z))
    ensures KindAt(rule, LStrip(b))
  {
    LStripKeepsEnd(b);
    LStripAppend(b, z);
    KindAtAppend(rule, LStrip(b), z);
  }

  /** The kind test looks at two characters at most. */
  lemma KindAtAppend(rule: TitleRule, v: string, z: string)
    requires v != [] && KindAt(rule, v + z)
    ensures KindAt(rule, v)
  {
    assert (v + z)[0] == v[0];
    if |v| > 1 {
      assert (v + z)[1] == v[1];
    }
  }

  /** After "第": whitespace at the end does not matter. */
  lemma NumberAtPrefix(rule: TitleRule, a: string, z: string)
    requires a != [] && !IsSpace(a[|a| - 1]) && IsBlank(z)
    requires NumberAt(rule, LStrip(a + z))
    ensures NumberAt(rule, LStrip(a))
  {
    LStripKeepsEnd(a);
    LStripAppend(a, z);
    NumberAtAppend(rule, LStrip(a), z);
  }

  /** The number group test, with whitespace at the end. */
  lemma NumberAtAppend(rule: TitleRule, u: string, z: string)
    requires u != [] && !IsSpace(u[|u| - 1]) && IsBlank(z)
    requires NumberAt(rule, u + z)
    ensures NumberAt(rule, u)
  {
    SpanInside(rule, u, z);
    var cs := NumberClass(u);
    var n := SpanOf(u, cs);
    SliceAppend(u, z, n);
    KindAfterNumber(rule, u + z);
    KindAtPrefix(rule, u[n..], z);
  }

  /** With whitespace at the end, the number group cannot run to the end of `u`. */
  lemma SpanInside(rule: TitleRule, u: string, z: string)
    requires u != [] && IsBlank(z)
    requires NumberAt(rule, u + z)
    ensures SpanOf(u, NumberClass(u)) < |u| && NumberClass(u + z) == NumberClass(u)
    ensures SpanOf(u + z, NumberClass(u)) == SpanOf(u, NumberClass(u))
  {
    var cs := NumberClass(u);
    assert (u + z)[0] == u[0];
    SpanAppend(u, z, cs);
    if SpanOf(u, cs) == |u| {
      NoNumberInBlank(z, u);
      assert (u + z)[|u|..] == z;
      LStripBlank(z);
      KindAfterNumber(rule, u + z);
      assert false;
    }
  }

  lemma KindAfterNumber(rule: TitleRule, u: string)
    requires NumberAt(rule, u)
    ensures KindAt(rule, LStrip(u[SpanOf(u, NumberClass(u))..]))
  {
  }

  /** A title stays a title when the whitespace at its end is cut off. */
  lemma TitleAtPrefix(rule: TitleRule, t: string, z: string)
    requires t != [] && !IsSpace(t[|t| - 1]) && IsBlank(z)
    requires TitleAt(rule, t + z)
    ensures TitleAt(rule, t)
  {
    TitleNumber(rule, t + z);
    SliceAppend(t, z, 1);
    var a := t[1..];
    NumberNeedsText(rule, a, z);
    LastOfDrop(t);
    NumberAtPrefix(rule, a, z);
    assert t[0] == '第';
    NumberTitle(rule, t);
  }

  /** Dropping the first character keeps the last. */
  lemma LastOfDrop(t: string)
    requires |t| >= 2 && !IsSpace(t[|t| - 1])
    ensures !IsSpace(t[1..][|t| - 2])
  {
    assert t[1..][|t| - 2] == t[|t| - 1];
  }

  /** A title is "第" followed by the number test. */
  lemma TitleNumber(rule: TitleRule, t: string)
    requires TitleAt(rule, t)
    ensures t != [] && t[0] == '第' && NumberAt(rule, LStrip(t[1..]))
  {
  }

  lemma NumberTitle(rule: TitleRule, t: string)
    requires t != [] && t[0] == '第' && NumberAt(rule, LStrip(t[1..]))
    ensures TitleAt(rule, t)
  {
  }

  /** Whitespace alone holds no number group. */
  lemma NumberNeedsText(rule: TitleRule, a: string, z: string)
    requires IsBlank(z) && NumberAt(rule, LStrip(a + z))
    ensures a != []
  {
    LStripBlank(z);
    assert [] + z == z;
  }

  // ---------------------------------------------------------------- properties

  /** The line without its newline is blank exactly when the raw line is. */
  lemma ChompBlank(raw: string)
    ensures IsBlank(Chomp(raw)) <==> IsBlank(raw)
  {
    RStripCharsDrops(raw, {'\n'});
  }

  /** A line becomes empty exactly when it is blank. */
  lemma BlankLine(isTitle: TitleTest, raw: string)
    ensures NormalizeLine(isTitle, raw) == [] <==> IsBlank(raw)
  {
    ChompBlank(raw);
    var line := Chomp(raw);
    if !IsBlank(line) {
      var l := LStripChars(line, {'\t'});
      TabsAreSpace();
      LStripCharsNonBlank(line, {'\t'});
      StripEmptyIffBlank(l);
    }
  }

  /** The title test sees the line with its leading tabs removed. */
  function Detabbed(raw: string): string {
    LStripChars(Chomp(raw), {'\t'})
  }

  /** The ends of a string stripped of some of its whitespace strip like the string. */
  lemma StripPeeled(raw: string)
    ensures Strip(Detabbed(raw)) == Strip(raw)
  {
    TabsAreSpace();
    LStripCharsLStrip(Chomp(raw), {'\t'});
    NewlineIsSpace();
    StripRStripChars(raw, {'\n'});
  }

  lemma NewlineIsSpace()
    ensures forall c :: c in {'\n'} ==> IsSpace(c)
  {
  }

  /** `strip` ignores whitespace that was already taken off the end. */
  lemma {:induction false} StripRStripChars(s: string, cs: set<char>)
    requires forall c :: c in cs ==> IsSpace(c)
    ensures Strip(RStripChars(s, cs)) == Strip(s)
    decreases |s|
  {
    if s != [] && s[|s| - 1] in cs {
      var t := s[..|s| - 1];
      assert RStripChars(s, cs) == RStripChars(t, cs);
      StripRStripChars(t, cs);
      StripDropLast(s);
    } else {
      assert RStripChars(s, cs) == s;
    }
  }

  /** `strip` ignores a whitespace character at the end. */
  lemma StripDropLast(s: string)
    requires s != [] && IsSpace(s[|s| - 1])
    ensures Strip(s) == Strip(s[..|s| - 1])
  {
    var t, c := s[..|s| - 1], s[|s| - 1];
    assert t + [c] == s;
    StripSnocSpace(t, c);
  }

  /** `strip` ignores one more whitespace character at the end. */
  lemma StripSnocSpace(s: string, c: char)
    requires IsSpace(c)
    ensures Strip(s + [c]) == Strip(s)
  {
    if LStrip(s) == [] {
      LStripEmptyBlank(s);
      LStripSpacesFirst(s, [c]);
      assert [c][1..] == [];
      assert LStrip([c]) == LStrip([]);
    } else {
      LStripAppend(s, [c]);
      RStripSpacesLast(LStrip(s), [c]);
    }
  }

  /** A string is its right strip, then whitespace. */
  lemma RStripSplit(t: string)
    ensures t == RStrip(t) + t[|RStrip(t)|..]
    ensures IsBlank(t[|RStrip(t)|..])
  {
    var k := |RStrip(t)|;
    RStripDropsSpaces(t);
    TakeDrop(t, k);
    assert forall i :: 0 <= i < |t| - k ==> t[k..][i] == t[k + i];
  }

  /** The strip of a non-blank string starts and ends with a non-space. */
  lemma StripEnds(s: string)
    requires !IsBlank(s)
    ensures Strip(s) != [] && !IsSpace(Strip(s)[0]) && !IsSpace(Strip(s)[|Strip(s)| - 1])
  {
    StripEmptyIffBlank(s);
    RStripDropsSpaces(LStrip(s));
    assert Strip(s)[0] == LStrip(s)[0];
  }

  /** `rstrip` ignores whitespace at the end. */
  lemma {:induction false} RStripSpacesLast(s: string, z: string)
    requires IsBlank(z)
    ensures RStrip(s + z) == RStrip(s)
    decreases |z|
  {
    if z == [] {
      assert s + z == s;
    } else {
      assert (s + z)[..|s + z| - 1] == s + z[..|z| - 1];
      RStripSpacesLast(s, z[..|z| - 1]);
    }
  }

  /** A chapter title is output as the raw line stripped of all surrounding whitespace. */
  lemma TitleLine(isTitle: TitleTest, raw: string)
    requires !IsBlank(raw) && isTitle(Detabbed(raw))
    ensures NormalizeLine(isTitle, raw) == Strip(raw)
  {
    ChompBlank(raw);
    StripPeeled(raw);
  }

  /**
   * Any other non-blank line is output as two ideographic spaces and the line
   * with all leading whitespace (tabs, spaces, ideographic spaces) removed.
   */
  lemma ProseLine(isTitle: TitleTest, raw: string)
    requires !IsBlank(raw) && !isTitle(Detabbed(raw))
    ensures NormalizeLine(isTitle, raw) == [FullWidthSpace, FullWidthSpace] + LStrip(Chomp(raw))
  {
    var line := Chomp(raw);
    ChompBlank(raw);
    assert !IsBlank(line);
    var l := LStripChars(line, {'\t'});
    BodyLStrip(l);
    TabsAreSpace();
    LStripCharsLStrip(line, {'\t'});
    assert LStrip(Body(l)) == LStrip(line);
  }

  /** Leading tabs do not change what a line becomes. */
  lemma TabsIgnored(isTitle: TitleTest, w: string, s: string)
    requires forall i :: 0 <= i < |w| ==> w[i] == '\t'
    ensures NormalizeLine(isTitle, w + s) == NormalizeLine(isTitle, s)
  {
    RStripCharsAppend(w, s, {'\n'});
    var line := Chomp(s);
    if line == [] {
      assert RStripChars(w, {'\n'}) == w by {
        if w != [] {
          assert w[|w| - 1] == '\t';
        }
      }
      assert IsBlank(w);
    } else {
      assert Chomp(w + s) == w + line;
      LStripCharsAppend(w, line, {'\t'});
      assert IsBlank(w + line) <==> IsBlank(line) by {
        assert forall i :: 0 <= i < |line| ==> (w + line)[|w| + i] == line[i];
      }
    }
  }

  /** Whitespace around a title: cutting it off the end keeps the title a title. */
  lemma StripKeepsTitle(rule: TitleRule, l: string)
    requires !IsBlank(l) && IsChapterTitle(rule, l)
    ensures IsChapterTitle(rule, Strip(l))
  {
    var t := LStrip(l);
    assert TitleAt(rule, t);
    TitleAtRStrip(rule, t);
    StripEnds(l);
    assert LStrip(Strip(l)) == Strip(l);
  }

  /** A title stays a title when its trailing whitespace is cut off. */
  lemma TitleAtRStrip(rule: TitleRule, t: string)
    requires TitleAt(rule, t)
    ensures TitleAt(rule, RStrip(t))
  {
    TitleNumber(rule, t);
    NotSpaceDi();
    RStripKeepsFirst(t);
    RStripSplit(t);
    TitleAtPrefix(rule, RStrip(t), t[|RStrip(t)|..]);
  }

  /** A string that starts with a non-space keeps it when right-stripped. */
  lemma RStripKeepsFirst(t: string)
    requires t != [] && !IsSpace(t[0])
    ensures RStrip(t) != []
  {
    RStripDropsSpaces(t);
  }

  lemma NotSpaceDi()
    ensures !IsSpace('第')
  {
  }

  /** Indenting a line that is not a title keeps it not a title. */
  lemma IndentKeepsProse(rule: TitleRule, l: string)
    requires !IsChapterTitle(rule, l)
    ensures !IsChapterTitle(rule, [FullWidthSpace, FullWidthSpace] + LStrip(l))
  {
    LStripIndent(LStrip(l));
    LStripTwice(l);
  }

  lemma TabsAreSpace()
    ensures forall c :: c in {'\t'} ==> IsSpace(c)
  {
  }

  /** A string that left-strips to nothing is blank. */
  lemma LStripEmptyBlank(s: string)
    requires LStrip(s) == []
    ensures IsBlank(s)
  {
    LStripDropsSpaces(s);
  }

  /** A sequence is its first `n` elements followed by the rest. */
  lemma TakeDrop<T>(t: seq<T>, n: nat)
    requires n <= |t|
    ensures t == t[..n] + t[n..]
  {
  }

  /** A line without its newline does not end in one. */
  lemma ChompEnd(raw: string)
    requires Chomp(raw) != []
    ensures Chomp(raw)[|Chomp(raw)| - 1] != '\n'
  {
  }

  /** The indent is whitespace. */
  lemma LStripIndent(w: string)
    ensures LStrip([FullWidthSpace, FullWidthSpace] + w) == LStrip(w)
  {
    var ind := [FullWidthSpace, FullWidthSpace];
    IndentIsSpace();
    LStripSpacesFirst(ind, w);
  }

  lemma IndentIsSpace()
    ensures forall i :: 0 <= i < 2 ==> IsSpace([FullWidthSpace, FullWidthSpace][i])
  {
  }

  lemma LStripTwice(s: string)
    ensures LStrip(LStrip(s)) == LStrip(s)
  {
    var t := LStrip(s);
    assert t != [] ==> !IsSpace(t[0]);
  }

  /** What normalising a second time needs of the title test, at one line. */
  predicate StableAt(isTitle: TitleTest, l: string) {
    && (isTitle(l) ==> isTitle(Strip(l)))
    && (!isTitle(l) ==> !isTitle([FullWidthSpace, FullWidthSpace] + LStrip(l)))
  }

  /** Both title rules are stable at every non-blank line. */
  lemma TitleOfStable(rule: TitleRule, l: string)
    requires !IsBlank(l)
    ensures StableAt(TitleOf(rule), l)
  {
    if IsChapterTitle(rule, l) {
      StripKeepsTitle(rule, l);
    } else {
      IndentKeepsProse(rule, l);
    }
  }

  /** A title that has been output is read back as the same title. */
  lemma TitleFixed(isTitle: TitleTest, l: string)
    requires !IsBlank(l) && isTitle(Strip(l))
    ensures NormalizeLine(isTitle, Strip(l)) == Strip(l)
  {
    var r := Strip(l);
    StripEnds(l);
    ChompKeeps(r);
    assert !IsBlank(r);
    DetabKeeps(r);
    StripTrimmed(r);
  }

  /** An indented line that has been output is read back unchanged. */
  lemma ProseFixed(isTitle: TitleTest, w: string)
    requires w != [] && !IsSpace(w[0]) && w[|w| - 1] != '\n'
    requires !isTitle([FullWidthSpace, FullWidthSpace] + w)
    ensures var r := [FullWidthSpace, FullWidthSpace] + w; NormalizeLine(isTitle, r) == r
  {
    var r := [FullWidthSpace, FullWidthSpace] + w;
    assert r[|r| - 1] == w[|w| - 1] && r[2] == w[0] && r[0] == FullWidthSpace;
    ChompKeeps(r);
    assert !IsBlank(r);
    DetabKeeps(r);
    LStripIndent(w);
    BodyLStrip(r);
    assert LStrip(w) == w;
  }

  /** The left strip of a non-blank line without a final "\n". */
  lemma ProseEnds(l: string)
    requires !IsBlank(l) && l[|l| - 1] != '\n'
    ensures LStrip(l) != [] && !IsSpace(LStrip(l)[0]) && LStrip(l)[|LStrip(l)| - 1] != '\n'
  {
    StripEmptyIffBlank(l);
  }

  /** A line that does not end in "\n" is its own line without newline. */
  lemma ChompKeeps(s: string)
    requires s != [] && s[|s| - 1] != '\n'
    ensures Chomp(s) == s
  {
  }

  /** A line that does not start with a tab has no tabs to strip. */
  lemma DetabKeeps(s: string)
    requires s != [] && s[0] != '\t'
    ensures LStripChars(s, {'\t'}) == s
  {
  }

  /** Normalising a line a second time changes nothing, for a title test stable at that line. */
  lemma NormalizeLineTwice(isTitle: TitleTest, raw: string)
    requires !IsBlank(Detabbed(raw)) ==> StableAt(isTitle, Detabbed(raw))
    ensures NormalizeLine(isTitle, NormalizeLine(isTitle, raw)) == NormalizeLine(isTitle, raw)
  {
    var line := Chomp(raw);
    if IsBlank(line) {
      assert IsBlank("");
    } else {
      var l := Detabbed(raw);
      DetabbedShape(raw);
      if isTitle(l) {
        TitleFixed(isTitle, l);
      } else {
        BodyLStrip(l);
        ProseEnds(l);
        ProseFixed(isTitle, LStrip(l));
      }
    }
  }

  /** A non-blank line with its tabs removed is non-blank and does not end in "\n". */
  lemma DetabbedShape(raw: string)
    requires !IsBlank(Chomp(raw))
    ensures !IsBlank(Detabbed(raw)) && Detabbed(raw)[|Detabbed(raw)| - 1] != '\n'
  {
    ChompEnd(raw);
    DetabShape(Chomp(raw));
  }

  /** Taking the tabs off a non-blank line keeps it non-blank and keeps its last character. */
  lemma DetabShape(line: string)
    requires !IsBlank(line) && line[|line| - 1] != '\n'
    ensures var l := LStripChars(line, {'\t'}); !IsBlank(l) && l[|l| - 1] != '\n'
  {
    var l := LStripChars(line, {'\t'});
    TabsAreSpace();
    LStripCharsNonBlank(line, {'\t'});
    LStripCharsDrops(line, {'\t'});
    SuffixLast(line, l);
  }

  /** A non-empty suffix ends where the whole does. */
  lemma SuffixLast(s: string, t: string)
    requires t != [] && |t| <= |s| && t == s[|s| - |t|..]
    ensures t[|t| - 1] == s[|s| - 1]
  {
  }

  /** Normalising a line a second time changes nothing, with either title rule. */
  lemma NormalizeLineIdempotent(rule: TitleRule, raw: string)
    ensures NormalizeLine(TitleOf(rule), NormalizeLine(TitleOf(rule), raw)) == NormalizeLine(TitleOf(rule), raw)
  {
    if !IsBlank(Detabbed(raw)) {
      TitleOfStable(rule, Detabbed(raw));
    }
    NormalizeLineTwice(TitleOf(rule), raw);
  }

  /** Applying `normalize_lines` twice gives what applying it once gives. */
  lemma NormalizeAllIdempotent(rule: TitleRule, lines: seq<string>)
    ensures NormalizeAll(TitleOf(rule), NormalizeAll(TitleOf(rule), lines)) == NormalizeAll(TitleOf(rule), lines)
  {
    forall i | 0 <= i < |lines| {
      NormalizeLineIdempotent(rule, lines[i]);
    }
  }

  // ---------------------------------------------------------------- examples

  /** A number group of one class, then the kind: the number test comes down to the kind test. */
  lemma NumberOfParts(rule: TitleRule, num: string, k: char, rest: string)
    requires num != [] && AllIn(num, NumberClass(num)) && k in ChapterKinds
    ensures NumberAt(rule, num + ([k] + rest)) <==> KindAt(rule, [k] + rest)
  {
    var v := [k] + rest;
    var u := num + v;
    var cs := NumberClass(num);
    assert u[0] == num[0];
    assert NumberClass(u) == cs;
    ClassesDisjoint();
    assert v[0] == k;
    SpanOfPrefix(num, v, cs);
    assert u[|num|..] == v;
    assert LStrip(v) == v;
  }

  /** "第", a number group of one class, the kind and the rest: a title exactly when the kind test holds. */
  lemma TitleOfParts(rule: TitleRule, num: string, k: char, rest: string)
    requires num != [] && AllIn(num, NumberClass(num)) && k in ChapterKinds
    ensures IsChapterTitle(rule, "第" + (num + ([k] + rest))) <==> KindAt(rule, [k] + rest)
  {
    var u := num + ([k] + rest);
    var t := "第" + u;
    NotSpaceDi();
    assert t[0] == '第';
    assert LStrip(t) == t;
    assert t[1..] == u;
    assert u[0] == num[0];
    ClassesDisjoint();
    assert LStrip(u) == u;
    NumberOfParts(rule, num, k, rest);
  }

  /** "第", a number group, the kind, and a name starting with a word character and ending in a non-space. */
  predicate GluedParts(num: string, k: char, name: string) {
    && num != [] && AllIn(num, NumberClass(num)) && k in ChapterKinds
    && name != [] && IsWordChar(name[0]) && !IsSpace(name[|name| - 1])
  }

  /** The title glued to its name. */
  function Glued(num: string, k: char, name: string): string {
    "第" + (num + ([k] + name))
  }

  /** A title glued to its name is a title only without the word boundary. */
  lemma GluedTitle(rule: TitleRule, num: string, k: char, name: string)
    requires GluedParts(num, k, name)
    ensures IsChapterTitle(rule, Glued(num, k, name)) <==> rule == Intended
  {
    TitleOfParts(rule, num, k, name);
    assert ([k] + name)[1] == name[0];
  }

  lemma NewlineTabSpace()
    ensures IsSpace('\n') && IsSpace('\t')
  {
  }

  /** A line with no whitespace at either end: nothing to chomp, detab or strip. */
  lemma TrimmedShape(s: string)
    requires s != [] && !IsSpace(s[0]) && !IsSpace(s[|s| - 1])
    ensures !IsBlank(s) && Detabbed(s) == s && LStrip(Chomp(s)) == s && Strip(s) == s
  {
    NewlineTabSpace();
    assert s[0] != '\t';
    assert s[|s| - 1] != '\n';
    ChompKeeps(s);
    DetabKeeps(s);
    StripTrimmed(s);
  }

  /** The same line followed by one space other than a newline: the space is stripped. */
  lemma TrailingSpaceShape(s: string, c: char)
    requires s != [] && !IsSpace(s[0]) && !IsSpace(s[|s| - 1]) && IsSpace(c) && c != '\n'
    ensures !IsBlank(s + [c]) && Detabbed(s + [c]) == s + [c] && Strip(s + [c]) == s
  {
    var r := s + [c];
    NewlineTabSpace();
    assert r[0] == s[0];
    assert r[0] != '\t';
    assert r[|r| - 1] == c;
    ChompKeeps(r);
    DetabKeeps(r);
    assert LStrip(r) == r;
    RStripSpacesLast(s, [c]);
    StripTrimmed(s);
  }

  /** A glued title starts with "第" and ends with the name's last character. */
  lemma GluedEnds(num: string, k: char, name: string)
    requires GluedParts(num, k, name)
    ensures var t := Glued(num, k, name); t != [] && !IsSpace(t[0]) && !IsSpace(t[|t| - 1])
  {
    var t := Glued(num, k, name);
    assert t[0] == '第';
    assert t[|t| - 1] == name[|name| - 1];
    NotSpaceDi();
  }

  /** A line with no whitespace at either end that is not a title: indented, nothing else changes. */
  lemma TrimmedProse(isTitle: TitleTest, t: string)
    requires t != [] && !IsSpace(t[0]) && !IsSpace(t[|t| - 1]) && !isTitle(t)
    ensures NormalizeLine(isTitle, t) == [FullWidthSpace, FullWidthSpace] + t
  {
    TrimmedShape(t);
    ProseLine(isTitle, t);
  }

  /** A line with no whitespace at either end that is a title: left as it is. */
  lemma TrimmedTitle(isTitle: TitleTest, t: string)
    requires t != [] && !IsSpace(t[0]) && !IsSpace(t[|t| - 1]) && isTitle(t)
    ensures NormalizeLine(isTitle, t) == t
  {
    TrimmedShape(t);
    TitleLine(isTitle, t);
  }

  /** As written, the script indents a title glued to its name as if it were prose. */
  lemma BoundaryQuirk(num: string, k: char, name: string)
    requires GluedParts(num, k, name)
    ensures var t := Glued(num, k, name);
      NormalizeLine(TitleOf(AsWritten), t) == [FullWidthSpace, FullWidthSpace] + t
  {
    GluedEnds(num, k, name);
    GluedTitle(AsWritten, num, k, name);
    TrimmedProse(TitleOf(AsWritten), Glued(num, k, name));
  }

  /** Without the word boundary, a glued title is left unindented, as the script's documentation says. */
  lemma GluedTitleKept(num: string, k: char, name: string)
    requires GluedParts(num, k, name)
    ensures var t := Glued(num, k, name); NormalizeLine(TitleOf(Intended), t) == t
  {
    GluedEnds(num, k, name);
    GluedTitle(Intended, num, k, name);
    TrimmedTitle(TitleOf(Intended), Glued(num, k, name));
  }

  /** "第一章初入", the documentation's example, is such a glued title. */
  lemma GluedExample()
    ensures GluedParts("一", '章', "初入") && Glued("一", '章', "初入") == "第一章初入"
  {
    assert IsWordChar('初') && !IsSpace('入');
  }

  /** A whitespace character other than a line break is not a word character. */
  lemma SpaceNotWord(c: char)
    requires IsSpace(c)
    ensures !IsWordChar(c)
  {
  }

  /** A title followed by one space: still a title under both rules. */
  lemma SpacedIsTitle(rule: TitleRule, num: string, k: char, c: char)
    requires num != [] && AllIn(num, NumberClass(num)) && k in ChapterKinds && IsSpace(c)
    ensures IsChapterTitle(rule, "第" + (num + ([k] + [c])))
  {
    SpaceNotWord(c);
    TitleOfParts(rule, num, k, [c]);
    assert ([k] + [c])[1] == c;
  }

  /** A tab, a title and one trailing space other than a newline: written out as the bare title. */
  lemma SpacedTitle(rule: TitleRule, num: string, k: char, c: char)
    requires num != [] && AllIn(num, NumberClass(num)) && k in ChapterKinds && IsSpace(c) && c != '\n'
    ensures var s := "第" + (num + [k]); NormalizeLine(TitleOf(rule), "\t" + (s + [c])) == s
  {
    var s := "第" + (num + [k]);
    var t := s + [c];
    assert forall i :: 0 <= i < |"\t"| ==> "\t"[i] == '\t';
    TabsIgnored(TitleOf(rule), "\t", t);
    assert s[0] == '第';
    assert s[|s| - 1] == k;
    NotSpaceDi();
    ClassesDisjoint();
    TrailingSpaceShape(s, c);
    assert "第" + (num + ([k] + [c])) == t;
    SpacedIsTitle(rule, num, k, c);
    TitleLine(TitleOf(rule), t);
  }

  /** The script writes the line "\t第十二章 " out as the bare title "第十二章". */
  lemma TwelfthChapterLine()
    ensures NormalizeLine(TitleOf(AsWritten), "\t第十二章 ") == "第十二章"
  {
    TwelfthChapterParts();
    SpacedTitle(AsWritten, "十二", '章', ' ');
  }

  lemma TwelfthChapterParts()
    ensures AllIn("十二", NumberClass("十二")) && '章' in ChapterKinds && IsSpace(' ')
    ensures "\t" + (("第" + ("十二" + ['章'])) + [' ']) == "\t第十二章 " && "第" + ("十二" + ['章']) == "第十二章"
  {
  }
}
