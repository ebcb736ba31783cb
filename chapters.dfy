/**
 * Splitting a plain-text novel into front matter and chapters
 * (scripts/split_novel_to_chapters.py): lines are cleaned, advertisement lines
 * dropped, runs of blank lines collapsed, and every chapter heading
 * ("第X章", "第X回", "第X节") opens a new segment.
 *
 * The HTML entity decoding (`html.unescape`) applied to every line is a
 * parameter of the model.
 */
module Chapters {
  import opened Results
  import opened Chars

  // ---------------------------------------------------------------- advertisement lines

  /**
   * `_looks_like_ad_line`: a non-blank line mentioning a URL or an e-mail
   * address (compared lower case), or one of the usual e-book site phrases.
   * Python's `lower()` is taken on ASCII letters: the patterns it is compared
   * with are ASCII, and no other character lowers to an ASCII letter that could
   * complete one of them.
   */
  predicate LooksLikeAdLine(line: string) {
    var s := Strip(line);
    if s == [] then false
    else
      var low := AsciiLower(s);
      if Contains(low, "http://") || Contains(low, "https://") then true
      else if Contains(low, "e-mail:") || Contains(low, "email:") then true
      else if Contains(s, "更多电子书") || (Contains(s, "电子书") && Contains(s, "访问")) then true
      else Contains(s, "下载") && (Contains(s, "访问") || Contains(s, "分享"))
  }

  /** A blank line is never an advertisement. */
  lemma BlankIsNoAd(line: string)
    requires IsBlank(line)
    ensures !LooksLikeAdLine(line)
  {
    StripEmptyIffBlank(line);
  }

  predicate NoSpace(s: string) {
    forall i :: 0 <= i < |s| ==> !IsSpace(s[i])
  }

  lemma SchemesHaveNoSpace()
    ensures NoSpace("http://") && NoSpace("https://")
  {
    assert forall c :: c in "https://" ==> !IsSpace(c);
  }

  /** A pattern without whitespace that occurs in `s` also occurs in `s.strip()`. */
  lemma {:induction false} OccursInStrip(s: string, pat: string, j: int)
    requires OccursAt(s, pat, j) && pat != []
    requires NoSpace(pat)
    ensures Contains(Strip(s), pat)
  {
    var l := LStrip(s);
    var d := |s| - |l|;
    LStripDropsSpaces(s);
    assert s[j] == pat[0] && !IsSpace(s[j]);
    assert j >= d;
    assert OccursAt(l, pat, j - d) by {
      assert l[j - d..j - d + |pat|] == s[j..j + |pat|];
    }
    var r := RStrip(l);
    RStripDropsSpaces(l);
    assert l[j - d + |pat| - 1] == pat[|pat| - 1] && !IsSpace(l[j - d + |pat| - 1]);
    assert j - d + |pat| <= |r|;
    assert r[j - d..j - d + |pat|] == l[j - d..j - d + |pat|];
    assert OccursAt(r, pat, j - d);
  }

  /** Lowering a character does not change whether it is whitespace. */
  lemma LowerSpace(c: char)
    ensures IsSpace(AsciiLowerChar(c)) == IsSpace(c)
  {
  }

  /** Lowering leaves whitespace alone, so it commutes with `lstrip`. */
  lemma {:induction false} LowerLStrip(s: string)
    ensures LStrip(AsciiLower(s)) == AsciiLower(LStrip(s))
  {
    if s != [] {
      var low := AsciiLower(s);
      assert low[1..] == AsciiLower(s[1..]);
      LowerSpace(s[0]);
      if IsSpace(s[0]) {
        assert LStrip(low) == LStrip(low[1..]);
        assert LStrip(s) == LStrip(s[1..]);
        LowerLStrip(s[1..]);
      } else {
        assert LStrip(low) == low;
        assert LStrip(s) == s;
      }
    }
  }

  lemma {:induction false} LowerRStrip(s: string)
    ensures RStrip(AsciiLower(s)) == AsciiLower(RStrip(s))
  {
    if s != [] {
      var low := AsciiLower(s);
      assert low[..|s| - 1] == AsciiLower(s[..|s| - 1]);
      LowerSpace(s[|s| - 1]);
      if IsSpace(s[|s| - 1]) {
        assert RStrip(low) == RStrip(low[..|s| - 1]);
        assert RStrip(s) == RStrip(s[..|s| - 1]);
        LowerRStrip(s[..|s| - 1]);
      } else {
        assert RStrip(low) == low;
        assert RStrip(s) == s;
      }
    }
  }

  lemma LowerStrip(s: string)
    ensures Strip(AsciiLower(s)) == AsciiLower(Strip(s))
  {
    LowerLStrip(s);
    LowerRStrip(LStrip(s));
  }

  /** A stripped line whose lower-case form contains a URL scheme is an advertisement. */
  lemma StrippedUrlIsAd(line: string)
    requires Contains(AsciiLower(Strip(line)), "http://") || Contains(AsciiLower(Strip(line)), "https://")
    ensures LooksLikeAdLine(line)
  {
  }

  /** Any line containing "http://" or "https://", in any ASCII case, is an advertisement. */
  lemma UrlLineIsAd(line: string, j: int)
    requires OccursAt(AsciiLower(line), "http://", j) || OccursAt(AsciiLower(line), "https://", j)
    ensures LooksLikeAdLine(line)
  {
    var low := AsciiLower(line);
    var pat := if OccursAt(low, "http://", j) then "http://" else "https://";
    SchemesHaveNoSpace();
    OccursInStrip(low, pat, j);
    LowerStrip(line);
    StrippedUrlIsAd(line);
  }

  /** A pattern found in `s.strip()` is found in `s`, of which the strip is a slice. */
  lemma ContainsOfStrip(s: string, pat: string)
    requires Contains(Strip(s), pat)
    ensures Contains(s, pat)
  {
    var l := LStrip(s);
    var d := |s| - |l|;
    LStripDropsSpaces(s);
    RStripDropsSpaces(l);
    var r := Strip(s);
    var k := Find(r, pat);
    assert r == s[d..d + |r|];
    assert s[d + k..d + k + |pat|] == r[k..k + |pat|];
    assert OccursAt(s, pat, d + k);
  }

  /** For a pattern without whitespace, `pat in s.strip()` is `pat in s`. */
  lemma ContainsStrip(s: string, pat: string)
    requires pat != [] && NoSpace(pat)
    ensures Contains(Strip(s), pat) <==> Contains(s, pat)
  {
    if Contains(Strip(s), pat) {
      ContainsOfStrip(s, pat);
    }
    if Contains(s, pat) {
      OccursInStrip(s, pat, Find(s, pat));
    }
  }

  /** The markers of an advertisement, looked for in the line as it stands. */
  predicate AdMarkers(line: string) {
    var low := AsciiLower(line);
    || Contains(low, "http://") || Contains(low, "https://")
    || Contains(low, "e-mail:") || Contains(low, "email:")
    || Contains(line, "更多电子书") || (Contains(line, "电子书") && Contains(line, "访问"))
    || (Contains(line, "下载") && (Contains(line, "访问") || Contains(line, "分享")))
  }

  lemma MarkersHaveNoSpace()
    ensures NoSpace("http://") && NoSpace("https://") && NoSpace("e-mail:") && NoSpace("email:")
    ensures NoSpace("更多电子书") && NoSpace("电子书") && NoSpace("访问") && NoSpace("下载") && NoSpace("分享")
  {
    SchemesHaveNoSpace();
    assert forall c :: c in "e-mail:" ==> !IsSpace(c);
    assert forall c :: c in "更多电子书" ==> !IsSpace(c);
    assert forall c :: c in "访问下载分享" ==> !IsSpace(c);
  }

  /**
   * A line is an advertisement exactly when it holds one of the markers: no
   * marker contains whitespace, so stripping the line first changes nothing,
   * and a blank line holds none.
   */
  lemma AdLineIff(line: string)
    ensures LooksLikeAdLine(line) <==> AdMarkers(line)
  {
    MarkersHaveNoSpace();
    LowerStrip(line);
    var low := AsciiLower(line);
    ContainsStrip(low, "http://");
    ContainsStrip(low, "https://");
    ContainsStrip(low, "e-mail:");
    ContainsStrip(low, "email:");
    ContainsStrip(line, "更多电子书");
    ContainsStrip(line, "电子书");
    ContainsStrip(line, "访问");
    ContainsStrip(line, "下载");
    ContainsStrip(line, "分享");
  }

  /** `_clean_line`: decode the HTML entities, then drop the trailing whitespace. */
  function CleanLine(unescape: string -> string, line: string): (r: string)
    ensures r == [] || !IsSpace(r[|r| - 1])
    ensures |r| <= |unescape(line)| && r == unescape(line)[..|r|]
  {
    RStripDropsSpaces(unescape(line));
    RStrip(unescape(line))
  }

  // ---------------------------------------------------------------- blank lines

  /** No two consecutive lines are blank. */
  predicate NoBlankRun(s: seq<string>) {
    forall i :: 0 <= i < |s| - 1 ==> !IsBlank(s[i]) || !IsBlank(s[i + 1])
  }

  /** Every blank line is the empty string. */
  predicate BlanksEmpty(s: seq<string>) {
    forall i :: 0 <= i < |s| ==> IsBlank(s[i]) ==> s[i] == ""
  }

  /** Neither the first nor the last line is blank. */
  predicate Trimmed(s: seq<string>) {
    s != [] ==> !IsBlank(s[0]) && !IsBlank(s[|s| - 1])
  }

  /** The non-blank lines, in order. */
  function NonBlank(s: seq<string>): (r: seq<string>)
    ensures |r| <= |s|
  {
    if s == [] then []
    else NonBlank(s[..|s| - 1]) + (if IsBlank(s[|s| - 1]) then [] else [s[|s| - 1]])
  }

  lemma {:induction false} NonBlankConcat(a: seq<string>, b: seq<string>)
    ensures NonBlank(a + b) == NonBlank(a) + NonBlank(b)
    decreases |b|
  {
    if b == [] {
      assert a + b == a;
    } else {
      assert (a + b)[..|a + b| - 1] == a + b[..|b| - 1];
      NonBlankConcat(a, b[..|b| - 1]);
    }
  }

  /**
   * The collapsing pass of `_normalize_blank_lines`: the output so far and the
   * length of the current run of blank lines; a run's first line becomes "".
   * Python's `not line.strip()` is `IsBlank` (see `StripEmptyIffBlank`).
   */
  function Collapse(lines: seq<string>): (seq<string>, nat) {
    if lines == [] then ([], 0)
    else
      var prev := Collapse(lines[..|lines| - 1]);
      var line := lines[|lines| - 1];
      if IsBlank(line) then (if prev.1 + 1 <= 1 then prev.0 + [""] else prev.0, prev.1 + 1)
      else (prev.0 + [line], 0)
  }

  /** `while out and not out[0].strip(): out.pop(0)`. */
  function DropLeadingBlanks(s: seq<string>): (r: seq<string>)
    ensures |r| <= |s|
    ensures r != [] ==> !IsBlank(r[0])
  {
    if s != [] && IsBlank(s[0]) then DropLeadingBlanks(s[1..]) else s
  }

  /** What is left after the leading blank lines is the rest of `s`. */
  lemma {:induction false} DropLeadingSuffix(s: seq<string>)
    ensures DropLeadingBlanks(s) == s[|s| - |DropLeadingBlanks(s)|..]
  {
    if s != [] && IsBlank(s[0]) {
      DropLeadingSuffix(s[1..]);
      assert s[1..][|s| - 1 - |DropLeadingBlanks(s)|..] == s[|s| - |DropLeadingBlanks(s)|..];
    }
  }

  /** `while out and not out[-1].strip(): out.pop()`. */
  function DropTrailingBlanks(s: seq<string>): (r: seq<string>)
    ensures |r| <= |s|
    ensures r != [] ==> !IsBlank(r[|r| - 1])
  {
    if s != [] && IsBlank(s[|s| - 1]) then DropTrailingBlanks(s[..|s| - 1]) else s
  }

  /** What is left before the trailing blank lines is the start of `s`. */
  lemma {:induction false} DropTrailingPrefix(s: seq<string>)
    ensures DropTrailingBlanks(s) == s[..|DropTrailingBlanks(s)|]
  {
    if s != [] && IsBlank(s[|s| - 1]) {
      DropTrailingPrefix(s[..|s| - 1]);
      assert s[..|s| - 1][..|DropTrailingBlanks(s)|] == s[..|DropTrailingBlanks(s)|];
    }
  }

  /** `_normalize_blank_lines`. */
  function NormalizeBlanks(lines: seq<string>): seq<string> {
    DropTrailingBlanks(DropLeadingBlanks(Collapse(lines).0))
  }

  /** The method form of `_normalize_blank_lines`: a counting loop, then the two trimming loops. */
  method NormalizeBlankLines(lines: seq<string>) returns (out: seq<string>)
    ensures out == NormalizeBlanks(lines)
  {
    out := [];
    var blank: nat := 0;
    for i := 0 to |lines|
      invariant Collapse(lines[..i]) == (out, blank)
    {
      assert lines[..i + 1][..i] == lines[..i];
      var line := lines[i];
      if IsBlank(line) {
        blank := blank + 1;
        if blank <= 1 {
          out := out + [""];
        }
      } else {
        blank := 0;
        out := out + [line];
      }
    }
    assert lines[..|lines|] == lines;
    while out != [] && IsBlank(out[0])
      invariant DropTrailingBlanks(DropLeadingBlanks(out)) == NormalizeBlanks(lines)
      decreases |out|
    {
      out := out[1..];
    }
    while out != [] && IsBlank(out[|out| - 1])
      invariant DropTrailingBlanks(out) == NormalizeBlanks(lines)
      decreases |out|
    {
      out := out[..|out| - 1];
    }
  }

  /** The collapsing pass leaves no blank run, only "" as a blank line, and records whether a run is open. */
  lemma {:induction false} CollapseShape(lines: seq<string>)
    ensures var (out, blank) := Collapse(lines);
      && NoBlankRun(out) && BlanksEmpty(out)
      && (blank > 0 ==> out != [] && IsBlank(out[|out| - 1]))
      && (blank == 0 ==> out == [] || !IsBlank(out[|out| - 1]))
  {
    if lines != [] {
      CollapseShape(lines[..|lines| - 1]);
      assert IsBlank("");
    }
  }

  /** The collapsing pass keeps the non-blank lines. */
  lemma {:induction false} CollapseNonBlank(lines: seq<string>)
    ensures NonBlank(Collapse(lines).0) == NonBlank(lines)
  {
    if lines != [] {
      var init := lines[..|lines| - 1];
      var line := lines[|lines| - 1];
      var prev := Collapse(init).0;
      CollapseNonBlank(init);
      assert IsBlank("");
      assert NonBlank([line]) == (if IsBlank(line) then [] else [line]) by {
        assert [line][..0] == [];
      }
      assert NonBlank([""]) == [] by {
        assert [""][..0] == [];
      }
      NonBlankConcat(prev, [line]);
      NonBlankConcat(prev, [""]);
    }
  }

  /** Every line the collapsing pass emits is an input line or "". */
  lemma {:induction false} CollapseFrom(lines: seq<string>)
    ensures forall i :: 0 <= i < |Collapse(lines).0| ==> Collapse(lines).0[i] == "" || Collapse(lines).0[i] in lines
  {
    if lines != [] {
      var init := lines[..|lines| - 1];
      CollapseFrom(init);
      var prev := Collapse(init).0;
      var out := Collapse(lines).0;
      forall i | 0 <= i < |out| ensures out[i] == "" || out[i] in lines {
        if i < |prev| {
          assert out[i] == prev[i];
          assert prev[i] in init ==> prev[i] in lines;
        }
      }
    }
  }

  /** Dropping blank lines at either end keeps the non-blank lines. */
  lemma {:induction false} DropLeadingKeepsNonBlank(s: seq<string>)
    ensures NonBlank(DropLeadingBlanks(s)) == NonBlank(s)
    decreases |s|
  {
    if s != [] && IsBlank(s[0]) {
      DropLeadingKeepsNonBlank(s[1..]);
      NonBlankBlankHead(s);
    }
  }

  /** A blank first line is not among the non-blank lines. */
  lemma NonBlankBlankHead(s: seq<string>)
    requires s != [] && IsBlank(s[0])
    ensures NonBlank(s) == NonBlank(s[1..])
  {
    var h := [s[0]];
    assert s == h + s[1..];
    NonBlankConcat(h, s[1..]);
    NonBlankOfBlank(s[0]);
  }

  lemma NonBlankOfBlank(x: string)
    requires IsBlank(x)
    ensures NonBlank([x]) == []
  {
    assert [x][..0] == [];
  }

  lemma {:induction false} DropTrailingKeepsNonBlank(s: seq<string>)
    ensures NonBlank(DropTrailingBlanks(s)) == NonBlank(s)
    decreases |s|
  {
    if s != [] && IsBlank(s[|s| - 1]) {
      DropTrailingKeepsNonBlank(s[..|s| - 1]);
    }
  }

  /** A slice keeps the shape of the lines it is cut from, and takes its lines from them. */
  lemma SliceShape(s: seq<string>, i: nat, j: nat)
    requires i <= j <= |s| && NoBlankRun(s) && BlanksEmpty(s)
    ensures NoBlankRun(s[i..j]) && BlanksEmpty(s[i..j])
    ensures forall k :: 0 <= k < j - i ==> s[i..j][k] == s[i + k]
  {
  }

  /** Where the normalized lines start inside the collapsed lines. */
  function NormalizeOffset(lines: seq<string>): nat {
    |Collapse(lines).0| - |DropLeadingBlanks(Collapse(lines).0)|
  }

  /** The normalized lines are a slice of the collapsed lines. */
  lemma NormalizeBlanksSlice(lines: seq<string>)
    ensures var out, d, r := Collapse(lines).0, NormalizeOffset(lines), NormalizeBlanks(lines);
      d + |r| <= |out| && r == out[d..d + |r|]
  {
    var out := Collapse(lines).0;
    var a := DropLeadingBlanks(out);
    var r := DropTrailingBlanks(a);
    var d := |out| - |a|;
    DropLeadingSuffix(out);
    DropTrailingPrefix(a);
    SliceOfDrop(out, d, |r|);
  }

  /** The normalized lines have no blank run, no blank line at either end, and every blank line is "". */
  lemma NormalizeBlanksShape(lines: seq<string>)
    ensures var r := NormalizeBlanks(lines); NoBlankRun(r) && Trimmed(r) && BlanksEmpty(r)
  {
    var out := Collapse(lines).0;
    CollapseShape(lines);
    NormalizeBlanksSlice(lines);
    DropTrailingPrefix(DropLeadingBlanks(out));
    SliceShape(out, NormalizeOffset(lines), NormalizeOffset(lines) + |NormalizeBlanks(lines)|);
  }

  /** Every normalized line is an input line or "". */
  lemma NormalizeBlanksFrom(lines: seq<string>)
    ensures var r := NormalizeBlanks(lines); forall i :: 0 <= i < |r| ==> r[i] == "" || r[i] in lines
  {
    var out := Collapse(lines).0;
    var r := NormalizeBlanks(lines);
    var d := NormalizeOffset(lines);
    CollapseFrom(lines);
    NormalizeBlanksSlice(lines);
    SliceElements(out, d, r);
  }

  lemma SliceElements<T>(s: seq<T>, d: nat, r: seq<T>)
    requires d + |r| <= |s| && r == s[d..d + |r|]
    ensures forall i :: 0 <= i < |r| ==> r[i] == s[d + i]
  {
  }

  /** Normalizing keeps exactly the non-blank lines of the input, in order. */
  lemma NormalizeBlanksNonBlank(lines: seq<string>)
    ensures NonBlank(NormalizeBlanks(lines)) == NonBlank(lines)
  {
    var out := Collapse(lines).0;
    CollapseNonBlank(lines);
    DropLeadingKeepsNonBlank(out);
    DropTrailingKeepsNonBlank(DropLeadingBlanks(out));
  }

  /** The collapsing pass leaves lines that are already normalized alone. */
  lemma {:induction false} CollapseClean(s: seq<string>)
    requires NoBlankRun(s) && BlanksEmpty(s)
    ensures Collapse(s).0 == s
    ensures Collapse(s).1 == if s != [] && IsBlank(s[|s| - 1]) then 1 else 0
  {
    if s != [] {
      var init := s[..|s| - 1];
      assert NoBlankRun(init) && BlanksEmpty(init);
      CollapseClean(init);
    }
  }

  /** Normalizing twice is normalizing once. */
  lemma NormalizeBlanksIdempotent(lines: seq<string>)
    ensures NormalizeBlanks(NormalizeBlanks(lines)) == NormalizeBlanks(lines)
  {
    var r := NormalizeBlanks(lines);
    NormalizeBlanksShape(lines);
    CollapseClean(r);
  }

  // ---------------------------------------------------------------- Chinese numerals

  /** The `digit` table of `_cn_num_to_int`. */
  function DigitValue(ch: char): Option<nat> {
    match ch
    case '零' => Some(0) case '〇' => Some(0) case '○' => Some(0)
    case '一' => Some(1) case '二' => Some(2) case '两' => Some(2) case '三' => Some(3)
    case '四' => Some(4) case '五' => Some(5) case '六' => Some(6) case '七' => Some(7)
    case '八' => Some(8) case '九' => Some(9)
    case _ => None
  }

  /** The `unit` table of `_cn_num_to_int`. */
  function UnitValue(ch: char): Option<nat> {
    match ch
    case '十' => Some(10) case '百' => Some(100) case '千' => Some(1000) case '万' => Some(10000)
    case _ => None
  }

  /**
   * The loop state: the total of the finished 万 groups, the group being built
   * below 万, and the pending digit.
   */
  datatype CnState = CnState(total: nat, section: nat, number: nat)

  /** One character of the conversion; characters that are neither digits nor units are ignored. */
  function CnStep(st: CnState, ch: char): CnState {
    if DigitValue(ch).Some? then st.(number := DigitValue(ch).value)
    else if UnitValue(ch).Some? then
      var u := UnitValue(ch).value;
      if u == 10000 then
        var sec := st.section + st.number;
        CnState(st.total + (if sec == 0 then 1 else sec) * 10000, 0, 0)
      else
        CnState(st.total, st.section + (if st.number == 0 then 1 else st.number) * u, 0)
    else st
  }

  /** The conversion loop from a given state over the remaining characters. */
  function CnRun(st: CnState, s: string): CnState
    decreases |s|
  {
    if s == [] then st else CnRun(CnStep(st, s[0]), s[1..])
  }

  const CnStart := CnState(0, 0, 0)

  /** The value the loop leaves: `total + section + number`. */
  function CnSum(st: CnState): nat {
    st.total + st.section + st.number
  }

  /**
   * `_cn_num_to_int`: blank is 0, ASCII digits are read as a decimal number,
   * anything else is folded character by character.  (Python's `isdigit` also
   * accepts non-ASCII digits; the headings this is applied to never contain any.)
   */
  function CnValue(s: string): nat {
    CnValueTrimmed(Strip(s))
  }

  function CnValueTrimmed(t: string): nat {
    if t == [] then 0
    else if IsAsciiDigits(t) then DecimalValue(t)
    else CnSum(CnRun(CnStart, t))
  }

  /** The method form of `_cn_num_to_int`, with its loop over the characters. */
  method CnNumToInt(s: string) returns (n: nat)
    ensures n == CnValue(s)
  {
    var t := Strip(s);
    if t == [] {
      return 0;
    }
    if IsAsciiDigits(t) {
      return DecimalValue(t);
    }
    var total: nat, section: nat, number: nat := 0, 0, 0;
    for i := 0 to |t|
      invariant CnRun(CnState(total, section, number), t[i..]) == CnRun(CnStart, t)
    {
      ghost var before := CnState(total, section, number);
      assert CnRun(before, t[i..]) == CnRun(CnStep(before, t[i]), t[i + 1..]) by {
        assert t[i..][1..] == t[i + 1..];
      }
      var ch := t[i];
      if DigitValue(ch).Some? {
        number := DigitValue(ch).value;
      } else if UnitValue(ch).Some? {
        var u := UnitValue(ch).value;
        if u == 10000 {
          section := section + number;
          if section == 0 {
            section := 1;
          }
          total := total + section * 10000;
          section := 0;
          number := 0;
        } else {
          if number == 0 {
            number := 1;
          }
          section := section + number * u;
          number := 0;
        }
      }
      assert CnState(total, section, number) == CnStep(before, ch);
    }
    assert t[|t|..] == [];
    n := total + section + number;
  }

  /** A numeral that is not ASCII digits and has no surrounding whitespace is folded as it stands. */
  lemma CnValueOfNumeral(s: string)
    requires s != [] && !IsSpace(s[0]) && !IsSpace(s[|s| - 1]) && !IsAsciiDigit(s[0])
    ensures CnValue(s) == CnSum(CnRun(CnStart, s))
  {
    StripTrimmed(s);
  }

  /** Digit characters are neither whitespace nor ASCII digits. */
  lemma DigitCharShape(x: char)
    requires DigitValue(x).Some?
    ensures !IsSpace(x) && !IsAsciiDigit(x) && UnitValue(x).None?
  {
  }

  /** A unit below 万 multiplies the pending digit (1 when there is none) into the section. */
  lemma UnitStep(st: CnState, ch: char, u: nat)
    requires UnitValue(ch) == Some(u) && u < 10000
    ensures CnStep(st, ch) == CnState(st.total, st.section + (if st.number == 0 then 1 else st.number) * u, 0)
  {
  }

  /** Running over two pieces is running over the first, then the second. */
  lemma {:induction false} CnRunConcat(st: CnState, x: string, y: string)
    ensures CnRun(st, x + y) == CnRun(CnRun(st, x), y)
    decreases |x|
  {
    if x == [] {
      assert x + y == y;
    } else {
      assert (x + y)[1..] == x[1..] + y;
      CnRunConcat(CnStep(st, x[0]), x[1..], y);
    }
  }

  /** A non-zero digit followed by a unit below 万 adds digit times unit to the section. */
  lemma DigitUnitPair(st: CnState, x: char, ch: char, u: nat)
    requires DigitValue(x).Some? && DigitValue(x).value > 0 && UnitValue(ch) == Some(u) && u < 10000
    ensures CnRun(st, [x, ch]) == CnState(st.total, st.section + DigitValue(x).value * u, 0)
  {
    var p := st.(number := DigitValue(x).value);
    UnitStep(p, ch, u);
    DigitCharShape(x);
    assert CnStep(st, x) == p;
    assert [x, ch][1..] == [ch];
    assert CnRun(st, [x, ch]) == CnRun(p, [ch]);
    assert [ch][1..] == [];
    assert CnRun(p, [ch]) == CnStep(p, ch);
  }

  /** A digit-unit pair at the front of the remaining characters. */
  lemma PairThen(st: CnState, x: char, ch: char, u: nat, rest: string)
    requires DigitValue(x).Some? && DigitValue(x).value > 0 && UnitValue(ch) == Some(u) && u < 10000
    ensures CnRun(st, [x, ch] + rest) == CnRun(CnState(st.total, st.section + DigitValue(x).value * u, 0), rest)
  {
    CnRunConcat(st, [x, ch], rest);
    DigitUnitPair(st, x, ch, u);
  }

  /** The loop over "a千b百c十d" ends with section 1000a + 100b + 10c and pending digit d. */
  lemma FullNumeralRun(x: char, y: char, z: char, w: char)
    requires DigitValue(x).Some? && DigitValue(y).Some? && DigitValue(z).Some? && DigitValue(w).Some?
    requires DigitValue(x).value > 0 && DigitValue(y).value > 0 && DigitValue(z).value > 0
    ensures var a, b, c, d := DigitValue(x).value, DigitValue(y).value, DigitValue(z).value, DigitValue(w).value;
      CnRun(CnStart, [x, '千', y, '百', z, '十', w]) == CnState(0, 1000 * a + 100 * b + 10 * c, d)
  {
    var a, b, c, d := DigitValue(x).value, DigitValue(y).value, DigitValue(z).value, DigitValue(w).value;
    var s := [x, '千', y, '百', z, '十', w];
    var p2, p3, p4 := [y, '百'], [z, '十'], [w];
    var st2 := CnState(0, 1000 * a, 0);
    var st4 := CnState(0, 1000 * a + 100 * b, 0);
    var st6 := CnState(0, 1000 * a + 100 * b + 10 * c, 0);
    calc {
      CnRun(CnStart, s);
      { assert s == [x, '千'] + (p2 + (p3 + p4)); }
      CnRun(CnStart, [x, '千'] + (p2 + (p3 + p4)));
      { PairThen(CnStart, x, '千', 1000, p2 + (p3 + p4)); }
      CnRun(st2, p2 + (p3 + p4));
      { PairThen(st2, y, '百', 100, p3 + p4); }
      CnRun(st4, p3 + p4);
      { PairThen(st4, z, '十', 10, p4); }
      CnRun(st6, p4);
      { assert p4[1..] == []; DigitCharShape(w); }
      CnState(0, 1000 * a + 100 * b + 10 * c, d);
    }
  }

  /** A numeral written with all units, "a千b百c十d" with non-zero a, b and c, has the positional value. */
  lemma FullNumeralValue(x: char, y: char, z: char, w: char)
    requires DigitValue(x).Some? && DigitValue(y).Some? && DigitValue(z).Some? && DigitValue(w).Some?
    requires DigitValue(x).value > 0 && DigitValue(y).value > 0 && DigitValue(z).value > 0
    ensures CnValue([x, '千', y, '百', z, '十', w])
         == 1000 * DigitValue(x).value + 100 * DigitValue(y).value + 10 * DigitValue(z).value + DigitValue(w).value
  {
    DigitCharShape(x);
    DigitCharShape(w);
    CnValueOfNumeral([x, '千', y, '百', z, '十', w]);
    FullNumeralRun(x, y, z, w);
  }

  /** A leading "十" stands for "一十": "十d" is 10 + d. */
  lemma TeenNumeralValue(w: char)
    requires DigitValue(w).Some?
    ensures CnValue(['十', w]) == 10 + DigitValue(w).value
  {
    var s := ['十', w];
    DigitCharShape(w);
    CnValueOfNumeral(s);
    UnitStep(CnStart, '十', 10);
    assert s[1..] == [w] && s[1..][1..] == [];
    assert CnRun(CnStart, s) == CnRun(CnState(0, 10, 0), [w]);
    assert CnStep(CnState(0, 10, 0), w) == CnState(0, 10, DigitValue(w).value);
  }

  /** Surrounding whitespace does not matter, and a blank string is 0. */
  lemma {:induction false} CnValueStrips(s: string)
    ensures CnValue(s) == CnValue(Strip(s))
    ensures IsBlank(s) ==> CnValue(s) == 0
  {
    StripIdempotent(s);
    StripEmptyIffBlank(s);
    assert Strip(Strip(s)) == Strip(s);
  }

  /** The examples of the splitter's own heading comment, and the ASCII case. */
  lemma TwelveExample()
    ensures CnValue("十二") == 12
  {
    CnValueOfNumeral("十二");
    assert CnRun(CnStart, "十二") == CnState(0, 10, 2) by {
      assert "十二"[1..] == "二";
      assert "二"[1..] == "";
    }
  }

  lemma ThousandRun()
    ensures CnRun(CnStart, "一千零九十七") == CnState(0, 1090, 7)
  {
    assert "一千零九十七"[1..] == "千零九十七";
    assert "千零九十七"[1..] == "零九十七";
    assert "零九十七"[1..] == "九十七";
    assert "九十七"[1..] == "十七";
    assert "十七"[1..] == "七";
    assert "七"[1..] == "";
  }

  lemma ThousandExample()
    ensures CnValue("一千零九十七") == 1097
  {
    CnValueOfNumeral("一千零九十七");
    ThousandRun();
  }

  lemma WanRun()
    ensures CnRun(CnStart, "两万三千") == CnState(20000, 3000, 0)
  {
    assert "两万三千"[1..] == "万三千";
    assert "万三千"[1..] == "三千";
    assert "三千"[1..] == "千";
    assert "千"[1..] == "";
  }

  lemma WanExample()
    ensures CnValue("两万三千") == 23000
  {
    CnValueOfNumeral("两万三千");
    WanRun();
  }

  /** ASCII digits without surrounding whitespace are read as a decimal number. */
  lemma AsciiNumeral(s: string)
    requires IsAsciiDigits(s)
    ensures CnValue(s) == DecimalValue(s)
  {
    StripTrimmed(s);
  }

  lemma AsciiExample()
    ensures CnValue("12") == 12
  {
    assert IsAsciiDigits("12");
    AsciiNumeral("12");
    assert "12"[..1] == "1" && "1"[..0] == "";
  }

  lemma DigitRun()
    ensures CnRun(CnStart, "一〇九七") == CnState(0, 0, 7)
  {
    assert "一〇九七"[1..] == "〇九七";
    assert "〇九七"[1..] == "九七";
    assert "九七"[1..] == "七";
    assert "七"[1..] == "";
  }

  /**
   * Digits without units are not positional: each digit replaces the pending
   * one, so "一〇九七" (1097 written digit by digit) is read as 7.
   */
  lemma DigitsWithoutUnits()
    ensures CnValue("一〇九七") == 7
  {
    CnValueOfNumeral("一〇九七");
    DigitRun();
  }

  // ---------------------------------------------------------------- chapter headings

  const AsciiDigitChars: set<char> := {'0', '1', '2', '3', '4', '5', '6', '7', '8', '9'}

  /** The numeral class of `_CHAPTER_RE`. */
  const CnNumeralChars: set<char> := {
    '零', '一', '二', '三', '四', '五', '六', '七', '八', '九', '十', '百', '千', '万', '两', '〇', '○'}

  /** `(章|回|节)`. */
  const ChapterKinds: set<char> := {'章', '回', '节'}

  /** The groups of a `_CHAPTER_RE` match: the number as written, the kind, and the stripped name. */
  datatype HeadingParts = HeadingParts(raw: string, kind: char, name: string)

  predicate AllIn(s: string, cs: set<char>) {
    forall i :: 0 <= i < |s| ==> s[i] in cs
  }

  /** What a match of `_CHAPTER_RE` can produce. */
  predicate WellFormedParts(p: HeadingParts) {
    && p.raw != []
    && (AllIn(p.raw, AsciiDigitChars) || AllIn(p.raw, CnNumeralChars))
    && p.kind in ChapterKinds
    && Strip(p.name) == p.name
    && NoNewline(p.name)
  }

  /**
   * `_CHAPTER_RE.match(line)`, the pattern
   * `^\s*第\s*([0-9]+|[零一二三四五六七八九十百千万两〇○]+)\s*(章|回|节)\s*(.*)\s*$`.
   * The character classes next to each other do not overlap, so the greedy
   * match never backtracks and is found in one left-to-right scan: whitespace,
   * "第", whitespace, a run of ASCII digits or of numeral characters (the first
   * character decides which), whitespace, the kind, whitespace, then the name up
   * to the first "\n" (`.` does not match it), after which only whitespace may
   * follow.
   */
  function MatchHeading(line: string): Option<HeadingParts> {
    var t := LStrip(line);
    if t == [] || t[0] != '第' then None else MatchNumber(LStrip(t[1..]))
  }

  /** The number group and what follows it, after "第" and its whitespace. */
  function MatchNumber(u: string): Option<HeadingParts> {
    var n := SpanOf(u, NumberClass(u));
    if n == 0 then None else MatchKind(u[..n], LStrip(u[n..]))
  }

  /** The kind group and the name, after the number and its whitespace. */
  function MatchKind(raw: string, v: string): Option<HeadingParts> {
    if v == [] || v[0] !in ChapterKinds then None
    else
      match NameGroup(v[1..])
      case None => None
      case Some(name) => Some(HeadingParts(raw, v[0], name))
  }

  /** The alternative of the number group that can match at the start of `u`. */
  function NumberClass(u: string): set<char> {
    if u != [] && u[0] in AsciiDigitChars then AsciiDigitChars else CnNumeralChars
  }

  /** `\s*(.*)\s*$` on what follows the kind: the stripped name, or no match. */
  function NameGroup(rest: string): Option<string> {
    var w := LStrip(rest);
    var k := Find(w, "\n");
    if k < 0 then Some(Strip(w))
    else if IsBlank(w[k..]) then Some(Strip(w[..k]))
    else None
  }

  /** A chapter heading: its number and its display title. */
  datatype Heading = Heading(no: nat, title: string)

  /** The display title "第X章" plus " name" when the name is not empty. */
  function HeadingTitle(p: HeadingParts): string {
    "第" + (p.raw + [p.kind] + NameTail(p.name))
  }

  /** What the title puts after the kind. */
  function NameTail(name: string): string {
    if name == [] then "" else " " + name
  }

  /** `_detect_chapter`. */
  function DetectChapter(line: string): Option<Heading> {
    match MatchHeading(line)
    case None => None
    case Some(p) => Some(Heading(CnValue(p.raw), HeadingTitle(p)))
  }

  predicate IsHeading(line: string) {
    DetectChapter(line).Some?
  }

  // ---------------------------------------------------------------- heading properties

  /** Where `strip` starts cutting. */
  function StripStart(s: string): nat {
    |s| - |LStrip(s)|
  }

  /** Stripping keeps a slice of the string. */
  lemma StripSlice(s: string)
    ensures StripStart(s) + |Strip(s)| <= |s| && Strip(s) == s[StripStart(s)..StripStart(s) + |Strip(s)|]
  {
    var l := LStrip(s);
    LStripDropsSpaces(s);
    RStripDropsSpaces(l);
    SliceOfDrop(s, |s| - |l|, |RStrip(l)|);
  }

  lemma SliceOfDrop<T>(s: seq<T>, a: nat, n: nat)
    requires a + n <= |s|
    ensures s[a..][..n] == s[a..a + n]
  {
  }

  predicate NoNewline(s: string) {
    forall i :: 0 <= i < |s| ==> s[i] != '\n'
  }

  /** A string with no "\n" keeps none when stripped. */
  lemma StripNoNewline(s: string)
    requires NoNewline(s)
    ensures NoNewline(Strip(s))
  {
    StripSlice(s);
    var a := StripStart(s);
    assert forall i :: 0 <= i < |Strip(s)| ==> Strip(s)[i] == s[a + i];
  }

  /** A string without "\n" has no occurrence of "\n". */
  lemma FindNoNewline(s: string)
    requires NoNewline(s)
    ensures Find(s, "\n") == -1
  {
    var k := Find(s, "\n");
    if k >= 0 {
      assert s[k..k + 1] == "\n";
      assert s[k] == '\n';
    }
  }

  /** The name group is stripped and never holds a "\n". */
  lemma NameGroupShape(rest: string)
    requires NameGroup(rest).Some?
    ensures Strip(NameGroup(rest).value) == NameGroup(rest).value && NoNewline(NameGroup(rest).value)
  {
    var w := LStrip(rest);
    var k := Find(w, "\n");
    var g := if k < 0 then w else w[..k];
    assert NoNewline(g) by {
      forall i | 0 <= i < |g| ensures g[i] != '\n' {
        assert !OccursAt(w, "\n", i);
        assert w[i..i + 1] == [g[i]];
      }
    }
    StripNoNewline(g);
    StripIdempotent(g);
  }

  lemma MatchKindShape(raw: string, v: string)
    requires MatchKind(raw, v).Some?
    ensures var p := MatchKind(raw, v).value;
      p.raw == raw && p.kind in ChapterKinds && Strip(p.name) == p.name && NoNewline(p.name)
  {
    NameGroupShape(v[1..]);
  }

  lemma MatchNumberShape(u: string)
    requires MatchNumber(u).Some?
    ensures var p := MatchNumber(u).value;
      && p.raw != [] && (AllIn(p.raw, AsciiDigitChars) || AllIn(p.raw, CnNumeralChars))
      && p.kind in ChapterKinds && Strip(p.name) == p.name && NoNewline(p.name)
  {
    var cs := NumberClass(u);
    var n := SpanOf(u, cs);
    var raw := u[..n];
    assert AllIn(raw, cs) by {
      forall i | 0 <= i < |raw| ensures raw[i] in cs {
        assert raw[i] == u[i];
      }
    }
    MatchKindShape(raw, LStrip(u[n..]));
  }

  /** What a match produces: a non-empty number from one class, a kind, and a stripped one-line name. */
  lemma MatchWellFormed(line: string)
    requires MatchHeading(line).Some?
    ensures WellFormedParts(MatchHeading(line).value)
  {
    var t := LStrip(line);
    MatchNumberShape(LStrip(t[1..]));
  }

  /** A stripped non-empty string starts and ends with a non-space. */
  lemma StrippedEnds(s: string)
    requires Strip(s) == s && s != []
    ensures !IsSpace(s[0]) && !IsSpace(s[|s| - 1])
  {
    var l := LStrip(s);
    var r := RStrip(l);
    assert r == s && r == l[..|r|];
    assert s[0] == l[0];
  }

  lemma NameGroupOfTail(name: string)
    requires Strip(name) == name && NoNewline(name)
    ensures NameGroup(NameTail(name)) == Some(name)
  {
    if name != [] {
      StrippedEnds(name);
      assert (" " + name)[1..] == name;
      assert LStrip(" " + name) == name;
    }
    FindNoNewline(LStrip(NameTail(name)));
  }

  /** Numeral and kind characters are not whitespace, and the number classes exclude the kinds. */
  lemma ClassesDisjoint()
    ensures forall c :: c in AsciiDigitChars ==> !IsSpace(c) && c !in CnNumeralChars && c !in ChapterKinds
    ensures forall c :: c in CnNumeralChars ==> !IsSpace(c) && c !in ChapterKinds
    ensures forall c :: c in ChapterKinds ==> !IsSpace(c)
  {
  }

  /** SpanOf stops exactly where the class ends. */
  lemma {:induction false} SpanOfPrefix(x: string, y: string, cs: set<char>)
    requires forall i :: 0 <= i < |x| ==> x[i] in cs
    requires y != [] && y[0] !in cs
    ensures SpanOf(x + y, cs) == |x|
    decreases |x|
  {
    if x == [] {
      assert x + y == y;
    } else {
      assert (x + y)[1..] == x[1..] + y;
      SpanOfPrefix(x[1..], y, cs);
    }
  }

  /** The number, kind and name of a title are matched back. */
  lemma MatchNumberOfTitle(p: HeadingParts)
    requires WellFormedParts(p)
    ensures MatchNumber(p.raw + [p.kind] + NameTail(p.name)) == Some(p)
  {
    var u := p.raw + [p.kind] + NameTail(p.name);
    var y := [p.kind] + NameTail(p.name);
    assert u == p.raw + y;
    ClassesDisjoint();
    var cs := NumberClass(u);
    assert u[0] == p.raw[0];
    assert forall i :: 0 <= i < |p.raw| ==> p.raw[i] in cs;
    SpanOfPrefix(p.raw, y, cs);
    assert u[..|p.raw|] == p.raw && u[|p.raw|..] == y;
    assert LStrip(y) == y;
    assert y[1..] == NameTail(p.name);
    NameGroupOfTail(p.name);
  }

  /** A string that starts with a non-space is its own left strip. */
  lemma LStripKeeps(s: string)
    requires s != [] && !IsSpace(s[0])
    ensures LStrip(s) == s
  {
  }

  lemma RawStartsNonSpace(p: HeadingParts)
    requires WellFormedParts(p)
    ensures !IsSpace(p.raw[0])
  {
    assert p.raw[0] in AsciiDigitChars || p.raw[0] in CnNumeralChars;
    ClassesDisjoint();
  }

  /** "第" followed by a string that starts with a non-space is matched from that string on. */
  lemma MatchAfterDi(u: string)
    requires u != [] && !IsSpace(u[0])
    ensures MatchHeading("第" + u) == MatchNumber(u)
  {
    var title := "第" + u;
    assert !IsSpace('第');
    LStripKeeps(title);
    assert title[1..] == u;
    LStripKeeps(u);
  }

  /** Parsing a display title gives back the parts it was built from. */
  lemma ParseTitle(p: HeadingParts)
    requires WellFormedParts(p)
    ensures MatchHeading(HeadingTitle(p)) == Some(p)
  {
    var u := p.raw + [p.kind] + NameTail(p.name);
    RawStartsNonSpace(p);
    assert u[0] == p.raw[0];
    MatchAfterDi(u);
    MatchNumberOfTitle(p);
  }

  /** A detected heading's own title is detected as the same heading. */
  lemma TitleRedetects(line: string)
    requires IsHeading(line)
    ensures DetectChapter(DetectChapter(line).value.title) == DetectChapter(line)
  {
    var p := MatchHeading(line).value;
    MatchWellFormed(line);
    ParseTitle(p);
  }

  /** Whitespace in front of a string is what `lstrip` removes first. */
  lemma {:induction false} LStripSpacesFirst(w: string, s: string)
    requires forall i :: 0 <= i < |w| ==> IsSpace(w[i])
    ensures LStrip(w + s) == LStrip(s)
    decreases |w|
  {
    if w != [] {
      assert (w + s)[1..] == w[1..] + s;
      LStripSpacesFirst(w[1..], s);
    } else {
      assert w + s == s;
    }
  }

  /** Indentation in front of a line does not change what heading it is. */
  lemma IndentedHeading(w: string, line: string)
    requires forall i :: 0 <= i < |w| ==> IsSpace(w[i])
    ensures DetectChapter(w + line) == DetectChapter(line)
  {
    LStripSpacesFirst(w, line);
  }

  lemma SingleDigitRun(x: char)
    requires DigitValue(x).Some?
    ensures CnRun(CnStart, [x]) == CnState(0, 0, DigitValue(x).value)
  {
    assert [x][1..] == [];
  }

  /** A single numeral digit is read as its value. */
  lemma SingleDigitValue(x: char)
    requires DigitValue(x).Some?
    ensures CnValue([x]) == DigitValue(x).value
  {
    DigitCharShape(x);
    CnValueOfNumeral([x]);
    SingleDigitRun(x);
  }

  lemma OneValue()
    ensures CnValue("一") == 1
  {
    SingleDigitValue('一');
  }

  lemma TwoValue()
    ensures CnValue("二") == 2
  {
    SingleDigitValue('二');
  }

  lemma FirstTitle()
    ensures HeadingTitle(HeadingParts("一", '章', "初入")) == "第一章 初入"
  {
  }

  lemma FirstParts()
    ensures WellFormedParts(HeadingParts("一", '章', "初入"))
  {
    assert AllIn("一", CnNumeralChars);
    assert NoNewline("初入");
    StripTrimmed("初入");
  }

  lemma FirstChapterExample()
    ensures DetectChapter("第一章 初入") == Some(Heading(1, "第一章 初入"))
  {
    FirstParts();
    FirstTitle();
    ParseTitle(HeadingParts("一", '章', "初入"));
    OneValue();
  }

  lemma AsciiParts()
    ensures WellFormedParts(HeadingParts("12", '章', ""))
    ensures HeadingTitle(HeadingParts("12", '章', "")) == "第12章"
  {
    assert AllIn("12", AsciiDigitChars);
    AsciiTitle();
  }

  lemma AsciiTitle()
    ensures HeadingTitle(HeadingParts("12", '章', "")) == "第12章"
  {
    var r := "12" + ['章'] + NameTail("");
    assert NameTail("") == "";
    assert r == "12章";
    assert "第" + r == "第12章";
  }

  lemma AsciiChapterExample()
    ensures DetectChapter("第12章") == Some(Heading(12, "第12章"))
  {
    AsciiParts();
    ParseTitle(HeadingParts("12", '章', ""));
    AsciiExample();
  }

  /** An indented line that does not start with "第" is no heading. */
  lemma IndentedProse(body: string)
    requires body != [] && body[0] != '第' && !IsSpace(body[0])
    ensures DetectChapter("　　" + body) == None
  {
    assert forall i :: 0 <= i < |"　　"| ==> IsSpace("　　"[i]);
    LStripSpacesFirst("　　", body);
    LStripKeeps(body);
  }

  lemma FirstProseLine()
    ensures "　　正文第一段。" == "　　" + "正文第一段。"
  {
  }

  /** An indented paragraph is no heading. */
  lemma ProseIsNoHeading()
    ensures DetectChapter("　　正文第一段。") == None
  {
    FirstProseLine();
    IndentedProse("正文第一段。");
  }

  lemma SecondTitle()
    ensures HeadingTitle(HeadingParts("二", '章', "李家")) == "第二章 李家"
  {
  }

  lemma SecondParts()
    ensures WellFormedParts(HeadingParts("二", '章', "李家"))
  {
    assert AllIn("二", CnNumeralChars);
    assert NoNewline("李家");
    StripTrimmed("李家");
  }

  lemma SecondChapterExample()
    ensures DetectChapter("第二章 李家") == Some(Heading(2, "第二章 李家"))
  {
    SecondParts();
    SecondTitle();
    ParseTitle(HeadingParts("二", '章', "李家"));
    TwoValue();
  }
}
