/**
 * The rule-based baseline segmenter (src/novel2comic/core/split_baseline.py):
 * chapter text -> lines -> paragraphs and scene breaks -> sentences -> shots.
 * Each imperative routine is a method proved equal to a fold over the prefix
 * it has consumed; the properties of the segmentation are lemmas on the folds.
 */
module Baseline {
  import opened Results
  import opened Chars
  import opened Shots
  import opened Validator

  /** The length thresholds; `minChars` is carried but never consulted. */
  datatype SplitConfig = SplitConfig(minChars: int, softTarget: int, hardCut: int)

  const DefaultSplitConfig: SplitConfig := SplitConfig(80, 140, 220)

  const SentenceEnds: set<char> := {'。', '！', '？', '；'}
  const ParagraphIndent: string := "　　"
  const EmDash: char := '—'
  const TitleNumerals: set<char> := {
    '零', '一', '二', '三', '四', '五', '六', '七', '八', '九', '十', '百', '千', '两',
    '0', '1', '2', '3', '4', '5', '6', '7', '8', '9'
  }

  // ---------------------------------------------------------------- line classes

  /** Three or more em dashes and nothing else. */
  predicate DashRule(t: string) {
    |t| >= 3 && forall i :: 0 <= i < |t| ==> t[i] == EmDash
  }

  /** `^\s*—{3,}\s*$`: a rule of em dashes, optionally surrounded by whitespace. */
  predicate IsSceneBreak(line: string) {
    DashRule(Strip(line))
  }

  /** `^\s*第[零一二三四五六七八九十百千两0-9]+章`: a chapter heading at the start of the line. */
  predicate IsChapterTitle(line: string) {
    var t := LStrip(line);
    && |t| > 1 && t[0] == '第'
    && var n := SpanOf(t[1..], TitleNumerals);
       n > 0 && 1 + n < |t| && t[1 + n] == '章'
  }

  // ---------------------------------------------------------------- sentences

  /** `[s.strip() for s in sents if s.strip()]`. */
  function StripNonBlank(xs: seq<string>): (r: seq<string>)
    ensures |r| <= |xs|
  {
    if xs == [] then []
    else
      var s := Strip(xs[0]);
      var rest := StripNonBlank(xs[1..]);
      if s == [] then rest else [s] + rest
  }

  /** Non-empty strings, each its own strip. */
  predicate AllStripped(r: seq<string>) {
    forall i :: 0 <= i < |r| ==> r[i] != [] && Strip(r[i]) == r[i]
  }

  lemma {:induction false} StripNonBlankStripped(xs: seq<string>)
    ensures AllStripped(StripNonBlank(xs))
  {
    if xs != [] {
      StripNonBlankStripped(xs[1..]);
      var s := Strip(xs[0]);
      var rest := StripNonBlank(xs[1..]);
      if s != [] {
        StripIdempotent(xs[0]);
        var r := [s] + rest;
        forall i | 0 <= i < |r| ensures r[i] != [] && Strip(r[i]) == r[i] {
          if i > 0 {
            assert r[i] == rest[i - 1];
          }
        }
      }
    }
  }

  /** `_split_sentences`: cut after every 。！？；, keep a non-blank unterminated rest, strip, drop blanks. */
  function SentencesSpec(text: string): seq<string> {
    StripNonBlank(RawSentences(text))
  }

  method SplitSentences(text: string) returns (sents: seq<string>)
    ensures sents == SentencesSpec(text)
  {
    var raw: seq<string> := [];
    var buf: string := "";
    for i := 0 to |text|
      invariant (raw, buf) == CutAfter(text[..i], SentenceEnds)
    {
      assert text[..i + 1][..i] == text[..i];
      buf := buf + [text[i]];
      if text[i] in SentenceEnds {
        raw := raw + [buf];
        buf := "";
      }
    }
    assert text[..|text|] == text;
    if Strip(buf) != [] {
      raw := raw + [buf];
    }
    sents := StripNonBlank(raw);
  }

  lemma {:induction false} StripNonBlankAppend(a: seq<string>, b: seq<string>)
    ensures StripNonBlank(a + b) == StripNonBlank(a) + StripNonBlank(b)
  {
    if a == [] {
      assert a + b == b;
    } else {
      assert (a + b)[0] == a[0] && (a + b)[1..] == a[1..] + b;
      StripNonBlankAppend(a[1..], b);
    }
  }

  /** Dropping blank strings and stripping the rest keeps the normalised text. */
  lemma {:induction false} StripNonBlankNormalize(xs: seq<string>)
    ensures NormalizeText(Concat(StripNonBlank(xs))) == NormalizeText(Concat(xs))
  {
    if xs != [] {
      StripNonBlankNormalize(xs[1..]);
      var s := Strip(xs[0]);
      NormalizeStrip(xs[0]);
      NormalizeConcat(xs[0], Concat(xs[1..]));
      var rest := StripNonBlank(xs[1..]);
      if s == [] {
        assert StripNonBlank(xs) == rest;
      } else {
        assert StripNonBlank(xs) == [s] + rest;
        assert Concat([s] + rest) == s + Concat(rest) by {
          assert ([s] + rest)[1..] == rest;
        }
        NormalizeConcat(s, Concat(rest));
      }
    }
  }

  /** When no string is blank, every one is kept (stripped). */
  lemma {:induction false} StripNonBlankKeepsAll(xs: seq<string>)
    requires forall i :: 0 <= i < |xs| ==> Strip(xs[i]) != []
    ensures |StripNonBlank(xs)| == |xs|
    ensures forall i :: 0 <= i < |xs| ==> StripNonBlank(xs)[i] == Strip(xs[i])
  {
    if xs != [] {
      StripNonBlankKeepsAll(xs[1..]);
      var rest := StripNonBlank(xs[1..]);
      var r := [Strip(xs[0])] + rest;
      assert StripNonBlank(xs) == r;
      forall i | 0 <= i < |xs| ensures r[i] == Strip(xs[i]) {
        if i > 0 {
          assert r[i] == rest[i - 1] && xs[i] == xs[1..][i - 1];
        }
      }
    }
  }

  /** Stripping a piece that ends in a non-space mark keeps it closed. */
  lemma StripClosedPiece(p: string, marks: set<char>)
    requires ClosedPiece(p, marks)
    requires forall c :: c in marks ==> !IsSpace(c)
    ensures Strip(p) != [] && ClosedPiece(Strip(p), marks)
  {
    var l := LStrip(p);
    var a := |p| - |l|;
    LStripDropsSpaces(p);
    assert p[|p| - 1] in marks;
    assert l != [];
    assert l[|l| - 1] == p[|p| - 1];
    assert RStrip(l) == l;
    forall i | 0 <= i < |l| - 1 ensures l[i] !in marks {
      assert l[i] == p[a + i];
    }
  }

  /** A stripped string holds only characters of the original. */
  lemma StripInside(s: string)
    ensures forall j :: 0 <= j < |Strip(s)| ==> exists k :: 0 <= k < |s| && Strip(s)[j] == s[k]
  {
    var l := LStrip(s);
    var r := Strip(s);
    LStripDropsSpaces(s);
    RStripDropsSpaces(l);
    forall j | 0 <= j < |r| ensures exists k :: 0 <= k < |s| && r[j] == s[k] {
      assert r[j] == l[j] == s[|s| - |l| + j];
    }
  }

  /** A non-empty string that is its own strip has a normalised text that is not empty. */
  lemma TrimmedNormalizesNonEmpty(r: seq<string>)
    requires r != [] && r[0] != [] && Strip(r[0]) == r[0]
    ensures NormalizeText(Concat(r)) != []
  {
    var x := r[0];
    assert LStrip(x) == x;
    assert NormalizeText(x) == [x[0]] + NormalizeText(x[1..]);
    assert Concat(r) == x + Concat(r[1..]);
    NormalizeConcat(x, Concat(r[1..]));
  }

  /** The pieces `_split_sentences` collects before the final strip: closed pieces, then a non-blank rest. */
  function RawSentences(text: string): seq<string> {
    var (closed, buf) := CutAfter(text, SentenceEnds);
    if Strip(buf) != [] then closed + [buf] else closed
  }

  lemma RawSentencesConcat(text: string)
    ensures NormalizeText(Concat(RawSentences(text))) == NormalizeText(text)
  {
    var (closed, buf) := CutAfter(text, SentenceEnds);
    CutAfterParts(text, SentenceEnds);
    NormalizeConcat(Concat(closed), buf);
    if Strip(buf) != [] {
      ConcatSnoc(closed, buf);
    } else {
      StripEmptyIffBlank(buf);
      NormalizeEmptyIffBlank(buf);
    }
  }

  /** Every raw piece is non-blank; all are closed by a mark except a final rest, which holds none. */
  predicate RawShape(raw: seq<string>) {
    && (forall i :: 0 <= i < |raw| ==> Strip(raw[i]) != [])
    && (forall i :: 0 <= i < |raw| - 1 ==> ClosedPiece(raw[i], SentenceEnds))
    && (raw != [] ==> ClosedPiece(raw[|raw| - 1], SentenceEnds) || NoMark(raw[|raw| - 1], SentenceEnds))
  }

  lemma RawShapeOf(closed: seq<string>, buf: string)
    requires forall i :: 0 <= i < |closed| ==> ClosedPiece(closed[i], SentenceEnds)
    requires NoMark(buf, SentenceEnds)
    ensures RawShape(if Strip(buf) != [] then closed + [buf] else closed)
  {
    assert forall c :: c in SentenceEnds ==> !IsSpace(c);
    forall i | 0 <= i < |closed| ensures Strip(closed[i]) != [] {
      StripClosedPiece(closed[i], SentenceEnds);
    }
    if Strip(buf) != [] {
      var raw := closed + [buf];
      forall i | 0 <= i < |raw| ensures Strip(raw[i]) != [] {
        if i < |closed| {
          assert raw[i] == closed[i];
        }
      }
      forall i | 0 <= i < |raw| - 1 ensures ClosedPiece(raw[i], SentenceEnds) {
        assert raw[i] == closed[i];
      }
      assert raw[|raw| - 1] == buf;
    }
  }

  lemma RawSentencesShape(text: string)
    ensures RawShape(RawSentences(text))
  {
    CutAfterParts(text, SentenceEnds);
    var (closed, buf) := CutAfter(text, SentenceEnds);
    RawShapeOf(closed, buf);
  }

  /** The sentences hold every non-space character of the paragraph, in order. */
  lemma SentencesConserve(text: string)
    ensures NormalizeText(Concat(SentencesSpec(text))) == NormalizeText(text)
  {
    StripNonBlankNormalize(RawSentences(text));
    RawSentencesConcat(text);
  }

  /** The sentence ends with one of 。！？；. */
  predicate EndsMarked(x: string) {
    x != [] && x[|x| - 1] in SentenceEnds
  }

  /** No 。！？； before the last character. */
  predicate InnerUnmarked(x: string) {
    forall j :: 0 <= j < |x| - 1 ==> x[j] !in SentenceEnds
  }

  /** Stripping a raw piece keeps a closing mark and adds no inner one. */
  lemma StripPieceMarks(x: string)
    requires ClosedPiece(x, SentenceEnds) || NoMark(x, SentenceEnds)
    ensures ClosedPiece(x, SentenceEnds) ==> EndsMarked(Strip(x))
    ensures InnerUnmarked(Strip(x))
  {
    assert forall c :: c in SentenceEnds ==> !IsSpace(c);
    if ClosedPiece(x, SentenceEnds) {
      StripClosedPiece(x, SentenceEnds);
    } else {
      StripInside(x);
      forall j | 0 <= j < |Strip(x)| ensures Strip(x)[j] !in SentenceEnds {
        var k :| 0 <= k < |x| && Strip(x)[j] == x[k];
      }
    }
  }

  /** Sentences that end with a mark (all but possibly the last) and hold no mark before their end. */
  predicate MarkedSentences(r: seq<string>) {
    && (forall i :: 0 <= i < |r| - 1 ==> EndsMarked(r[i]))
    && (forall i :: 0 <= i < |r| ==> InnerUnmarked(r[i]))
  }

  lemma StripMarksAt(raw: seq<string>, i: nat)
    requires RawShape(raw) && i < |raw|
    ensures i < |raw| - 1 ==> EndsMarked(Strip(raw[i]))
    ensures InnerUnmarked(Strip(raw[i]))
  {
    if i < |raw| - 1 {
      assert ClosedPiece(raw[i], SentenceEnds);
    }
    StripPieceMarks(raw[i]);
  }

  lemma StripAllMarks(raw: seq<string>)
    requires RawShape(raw)
    ensures MarkedSentences(StripNonBlank(raw))
  {
    assert forall i :: 0 <= i < |raw| ==> Strip(raw[i]) != [];
    StripNonBlankKeepsAll(raw);
    var r := StripNonBlank(raw);
    forall i | 0 <= i < |r|
      ensures i < |r| - 1 ==> EndsMarked(r[i])
      ensures InnerUnmarked(r[i])
    {
      StripMarksAt(raw, i);
    }
  }

  /** Every sentence but the last ends with one of 。！？；, and no sentence holds a mark before its end. */
  lemma SentencesMarks(text: string)
    ensures MarkedSentences(SentencesSpec(text))
  {
    RawSentencesShape(text);
    StripAllMarks(RawSentences(text));
  }

  /** A paragraph yields no sentence exactly when it is blank. */
  lemma SentencesEmptyIffBlank(text: string)
    ensures SentencesSpec(text) == [] <==> IsBlank(text)
  {
    var r := SentencesSpec(text);
    SentencesConserve(text);
    NormalizeEmptyIffBlank(text);
    if r != [] {
      StripNonBlankStripped(RawSentences(text));
      TrimmedNormalizesNonEmpty(r);
    }
    if !IsBlank(text) {
      var (closed, buf) := CutAfter(text, SentenceEnds);
      CutAfterParts(text, SentenceEnds);
      RawSentencesShape(text);
      StripNonBlankKeepsAll(RawSentences(text));
      if closed == [] {
        assert buf == text;
        StripEmptyIffBlank(text);
      }
    }
  }

  // ---------------------------------------------------------------- paragraphs

  /** A gathered block: a paragraph of joined lines, or a stripped scene-break rule. */
  datatype Block = Paragraph(text: string) | SceneBreakBlock(text: string)

  /** `flush_paragraph`: the open lines, joined by "\n", become a paragraph unless blank. */
  function Flush(out: seq<Block>, cur: seq<string>): seq<Block> {
    if cur == [] then out
    else
      var text := StripChars(Join("\n", cur), {'\n'});
      if Strip(text) != [] then out + [Paragraph(text)] else out
  }

  /** One pass of the line loop of `_gather_paragraphs`: the blocks so far and the open paragraph's lines. */
  function GatherStep(out: seq<Block>, cur: seq<string>, raw: string): (seq<Block>, seq<string>) {
    var line := RStrip(raw);
    if Strip(line) == [] then (Flush(out, cur), [])
    else if IsChapterTitle(line) then (Flush(out, cur), [])
    else if IsSceneBreak(line) then (Flush(out, cur) + [SceneBreakBlock(Strip(line))], [])
    else if StartsWith(line, ParagraphIndent) && cur != [] then (Flush(out, cur), [line])
    else (out, cur + [line])
  }

  function GatherState(lines: seq<string>): (seq<Block>, seq<string>) {
    if lines == [] then ([], [])
    else
      var (out, cur) := GatherState(lines[..|lines| - 1]);
      GatherStep(out, cur, lines[|lines| - 1])
  }

  /** `_gather_paragraphs`: the loop, then a final flush. */
  function Gather(lines: seq<string>): seq<Block> {
    var (out, cur) := GatherState(lines);
    Flush(out, cur)
  }

  method GatherParagraphs(lines: seq<string>) returns (out: seq<Block>)
    ensures out == Gather(lines)
  {
    out := [];
    var cur: seq<string> := [];
    for i := 0 to |lines|
      invariant (out, cur) == GatherState(lines[..i])
    {
      GatherStateSnoc(lines, i);
      out, cur := GatherLine(out, cur, lines[i]);
    }
    assert lines[..|lines|] == lines;
    out := Flush(out, cur);
  }

  /** The body of the line loop of `_gather_paragraphs`. */
  method GatherLine(out: seq<Block>, cur: seq<string>, raw: string) returns (out': seq<Block>, cur': seq<string>)
    ensures (out', cur') == GatherStep(out, cur, raw)
  {
    var line := RStrip(raw);
    if Strip(line) == [] {
      return Flush(out, cur), [];
    }
    if IsChapterTitle(line) {
      return Flush(out, cur), [];
    }
    if IsSceneBreak(line) {
      out', cur' := Flush(out, cur), [];
      out' := out' + [SceneBreakBlock(Strip(line))];
      return;
    }
    ghost var opens := StartsWith(line, ParagraphIndent) && cur != [];
    assert GatherStep(out, cur, raw) == if opens then (Flush(out, cur), [line]) else (out, cur + [line]);
    out', cur' := out, cur;
    if StartsWith(line, ParagraphIndent) && cur' != [] {
      out', cur' := Flush(out', cur'), [];
    }
    cur' := cur' + [line];
    assert opens ==> cur' == [line];
  }

  lemma GatherStateSnoc(lines: seq<string>, i: nat)
    requires i < |lines|
    ensures GatherState(lines[..i + 1]) == GatherStep(GatherState(lines[..i]).0, GatherState(lines[..i]).1, lines[i])
  {
    assert lines[..i + 1][..i] == lines[..i];
  }

  /** A block as the gatherer produces it: a non-blank paragraph or a bare dash rule. */
  predicate GoodBlock(b: Block) {
    match b
    case Paragraph(t) => Strip(t) != []
    case SceneBreakBlock(t) => DashRule(t)
  }

  predicate AllGood(bs: seq<Block>) {
    forall i :: 0 <= i < |bs| ==> GoodBlock(bs[i])
  }

  lemma GoodSnoc(bs: seq<Block>, b: Block)
    requires AllGood(bs) && GoodBlock(b)
    ensures AllGood(bs + [b])
  {
    forall i | 0 <= i < |bs| + 1 ensures GoodBlock((bs + [b])[i]) {
      if i < |bs| {
        assert (bs + [b])[i] == bs[i];
      }
    }
  }

  /** The blocks' texts run together, in order. */
  function BlocksText(bs: seq<Block>): string {
    if bs == [] then [] else BlocksText(bs[..|bs| - 1]) + bs[|bs| - 1].text
  }

  /** The lines' texts run together, in order, chapter headings left out. */
  function KeptText(lines: seq<string>): string {
    if lines == [] then [] else KeptText(lines[..|lines| - 1]) + KeptLine(lines[|lines| - 1])
  }

  /** A line's contribution to the kept text: nothing for a chapter heading. */
  function KeptLine(raw: string): string {
    if IsChapterTitle(RStrip(raw)) then [] else raw
  }

  lemma BlocksTextSnoc(bs: seq<Block>, b: Block)
    ensures BlocksText(bs + [b]) == BlocksText(bs) + b.text
  {
    assert (bs + [b])[..|bs|] == bs;
  }

  /** Flushing keeps the normalised text of the open lines and only adds good blocks. */
  lemma FlushProps(out: seq<Block>, cur: seq<string>)
    ensures NormalizeText(BlocksText(Flush(out, cur))) == NormalizeText(BlocksText(out)) + NormalizeText(Concat(cur))
    ensures AllGood(out) ==> AllGood(Flush(out, cur))
  {
    if cur != [] {
      var joined := Join("\n", cur);
      var text := StripChars(joined, {'\n'});
      NormalizeJoin("\n", cur);
      NormalizeStripChars(joined, {'\n'});
      if Strip(text) != [] {
        if AllGood(out) {
          GoodSnoc(out, Paragraph(text));
        }
        BlocksTextSnoc(out, Paragraph(text));
        NormalizeConcat(BlocksText(out), text);
      } else {
        StripEmptyIffBlank(text);
        NormalizeEmptyIffBlank(text);
        AppendEmpty(NormalizeText(BlocksText(out)));
      }
    } else {
      assert NormalizeText(Concat(cur)) == [];
      AppendEmpty(NormalizeText(BlocksText(out)));
    }
  }

  /**
   * The gather loop's invariant: the blocks and the open lines together hold the
   * normalised text of the lines read so far, headings excluded, and every block is good.
   */
  predicate GatherInv(out: seq<Block>, cur: seq<string>, kept: string) {
    && NormalizeText(BlocksText(out)) + NormalizeText(Concat(cur)) == NormalizeText(kept)
    && AllGood(out)
  }

  /** A flush, then an empty paragraph: the invariant holds for a line that adds no text. */
  lemma FlushEmptyInv(out: seq<Block>, cur: seq<string>, kept: string, extra: string)
    requires GatherInv(out, cur, kept)
    requires NormalizeText(extra) == []
    ensures GatherInv(Flush(out, cur), [], kept + extra)
  {
    FlushProps(out, cur);
    NormalizeConcat(kept, extra);
    assert NormalizeText(Concat([])) == [];
    AppendEmpty(NormalizeText(BlocksText(Flush(out, cur))));
    AppendEmpty(NormalizeText(kept));
  }

  lemma GatherStepProps(out: seq<Block>, cur: seq<string>, raw: string, kept: string)
    requires GatherInv(out, cur, kept)
    ensures var (out', cur') := GatherStep(out, cur, raw);
      GatherInv(out', cur', kept + KeptLine(raw))
  {
    var line := RStrip(raw);
    NormalizeStrip(raw);
    NormalizeConcat(kept, KeptLine(raw));
    FlushProps(out, cur);
    var f := Flush(out, cur);
    var n, k := NormalizeText(kept), NormalizeText(KeptLine(raw));
    var (out', cur') := GatherStep(out, cur, raw);
    if Strip(line) == [] {
      StripEmptyIffBlank(line);
      NormalizeEmptyIffBlank(line);
      assert NormalizeText(raw) == [];
      FlushEmptyInv(out, cur, kept, KeptLine(raw));
      assert GatherInv(out', cur', kept + KeptLine(raw));
    } else if IsChapterTitle(line) {
      FlushEmptyInv(out, cur, kept, KeptLine(raw));
      assert GatherInv(out', cur', kept + KeptLine(raw));
    } else if IsSceneBreak(line) {
      var t := Strip(line);
      assert out' == f + [SceneBreakBlock(t)] && cur' == [];
      NormalizeStrip(line);
      BlocksTextSnoc(f, SceneBreakBlock(t));
      NormalizeConcat(BlocksText(f), t);
      assert NormalizeText(Concat([])) == [];
      AppendEmpty(NormalizeText(BlocksText(out')));
      assert NormalizeText(BlocksText(out')) == n + k;
      assert GoodBlock(SceneBreakBlock(t));
      GoodSnoc(f, SceneBreakBlock(t));
    } else if StartsWith(line, ParagraphIndent) && cur != [] {
      assert out' == f && cur' == [line];
      ConcatSingle(line);
      assert GatherInv(out', cur', kept + KeptLine(raw));
    } else {
      assert out' == out && cur' == cur + [line];
      ConcatSnoc(cur, line);
      NormalizeConcat(Concat(cur), line);
      AppendAssoc(NormalizeText(BlocksText(out)), NormalizeText(Concat(cur)), k);
      assert GatherInv(out', cur', kept + KeptLine(raw));
    }
  }

  lemma {:induction false} GatherStateProps(lines: seq<string>)
    ensures var (out, cur) := GatherState(lines);
      GatherInv(out, cur, KeptText(lines))
  {
    if lines != [] {
      var init := lines[..|lines| - 1];
      GatherStateProps(init);
      var (out, cur) := GatherState(init);
      GatherStepProps(out, cur, lines[|lines| - 1], KeptText(init));
    } else {
      assert NormalizeText(Concat([])) == [];
    }
  }

  /** Gathering loses no non-space character outside chapter headings, and yields only good blocks. */
  lemma GatherProps(lines: seq<string>)
    ensures NormalizeText(BlocksText(Gather(lines))) == NormalizeText(KeptText(lines))
    ensures AllGood(Gather(lines))
  {
    GatherStateProps(lines);
    var (out, cur) := GatherState(lines);
    FlushProps(out, cur);
  }

  // ---------------------------------------------------------------- shots

  /** `emit`: the stripped text becomes the next shot, numbered by the count so far, unless empty. */
  function Emit(shots: seq<Shot>, text: string, kind: Kind): seq<Shot> {
    var t := Strip(text);
    if t == [] then shots else shots + [Shot(|shots|, kind, t, None)]
  }

  /** The `emit` closure: `idx` is the number of shots emitted so far. */
  method EmitShot(shots: seq<Shot>, idx: int, text: string, kind: Kind) returns (shots': seq<Shot>, idx': int)
    requires idx == |shots|
    ensures shots' == Emit(shots, text, kind)
    ensures idx' == |shots'|
  {
    var t := Strip(text);
    if t == [] {
      return shots, idx;
    }
    shots' := shots + [Shot(idx, kind, t, None)];
    idx' := idx + 1;
  }

  /** One sentence of the packing loop: append it, then cut at the soft target or, failing that, the hard cut. */
  function PackStep(out: seq<Shot>, buf: string, s: string, cfg: SplitConfig): (seq<Shot>, string) {
    var b := if buf == [] then s else buf + s;
    if |b| >= cfg.softTarget then (Emit(out, b, Mixed), [])
    else if |b| >= cfg.hardCut then (Emit(out, b, Mixed), [])
    else (out, b)
  }

  /** The sentence-packing loop over a paragraph's sentences: the shots so far and the open buffer. */
  function Pack(shots: seq<Shot>, sents: seq<string>, cfg: SplitConfig): (seq<Shot>, string) {
    if sents == [] then (shots, [])
    else
      var (out, buf) := Pack(shots, sents[..|sents| - 1], cfg);
      PackStep(out, buf, sents[|sents| - 1], cfg)
  }

  /** One block of the main loop of `split_baseline`. */
  function EmitBlock(shots: seq<Shot>, block: Block, cfg: SplitConfig): seq<Shot> {
    match block
    case SceneBreakBlock(t) => Emit(shots, t, SceneBreak)
    case Paragraph(t) =>
      var sents := SentencesSpec(t);
      if sents == [] then Emit(shots, t, Narration)
      else
        var (out, buf) := Pack(shots, sents, cfg);
        if Strip(buf) != [] then Emit(out, buf, Mixed) else out
  }

  function EmitBlocks(blocks: seq<Block>, cfg: SplitConfig): seq<Shot> {
    if blocks == [] then []
    else EmitBlock(EmitBlocks(blocks[..|blocks| - 1], cfg), blocks[|blocks| - 1], cfg)
  }

  /** `split_baseline` as a function of the chapter text. */
  function SplitBaselineSpec(chapterText: string, cfg: SplitConfig): seq<Shot> {
    EmitBlocks(Gather(SplitLines(chapterText)), cfg)
  }

  method SplitBaseline(chapterText: string, cfg: SplitConfig) returns (shots: seq<Shot>)
    ensures shots == SplitBaselineSpec(chapterText, cfg)
    ensures NumberedInOrder(shots)
    ensures forall i :: 0 <= i < |shots| ==> BaselineShot(shots[i])
    ensures NormalizeText(ConcatText(shots)) == NormalizeText(KeptText(SplitLines(chapterText)))
  {
    var lines := SplitLines(chapterText);
    var blocks := GatherParagraphs(lines);
    shots := [];
    var idx := 0;
    for b := 0 to |blocks|
      invariant shots == EmitBlocks(blocks[..b], cfg)
      invariant idx == |shots|
    {
      EmitBlocksSnoc(blocks, b, cfg);
      match blocks[b]
      case SceneBreakBlock(t) =>
        shots, idx := EmitShot(shots, idx, t, SceneBreak);
      case Paragraph(t) =>
        var sents := SplitSentences(t);
        if sents == [] {
          shots, idx := EmitShot(shots, idx, t, Narration);
        } else {
          var buf;
          shots, idx, buf := PackSentences(shots, idx, sents, cfg);
          if Strip(buf) != [] {
            shots, idx := EmitShot(shots, idx, buf, Mixed);
          }
        }
    }
    assert blocks[..|blocks|] == blocks;
    BaselineShape(chapterText, cfg);
    BaselineConservesText(chapterText, cfg);
  }

  /** The sentence loop of `split_baseline` over one paragraph; `buf` is left open for the final shot. */
  method PackSentences(shots: seq<Shot>, idx: int, sents: seq<string>, cfg: SplitConfig)
    returns (shots': seq<Shot>, idx': int, buf: string)
    requires idx == |shots|
    ensures (shots', buf) == Pack(shots, sents, cfg)
    ensures idx' == |shots'|
  {
    shots', idx', buf := shots, idx, "";
    for k := 0 to |sents|
      invariant (shots', buf) == Pack(shots, sents[..k], cfg)
      invariant idx' == |shots'|
    {
      PackSnoc(shots, sents, k, cfg);
      ghost var step := PackStep(shots', buf, sents[k], cfg);
      if buf == [] {
        buf := sents[k];
      } else {
        buf := buf + sents[k];
      }
      if |buf| >= cfg.softTarget {
        shots', idx' := EmitShot(shots', idx', buf, Mixed);
        buf := "";
        assert (shots', buf) == step;
        continue;
      }
      if |buf| >= cfg.hardCut {
        shots', idx' := EmitShot(shots', idx', buf, Mixed);
        buf := "";
        assert (shots', buf) == step;
        continue;
      }
      assert (shots', buf) == step;
    }
    assert sents[..|sents|] == sents;
  }

  lemma EmitBlocksSnoc(blocks: seq<Block>, b: nat, cfg: SplitConfig)
    requires b < |blocks|
    ensures EmitBlocks(blocks[..b + 1], cfg) == EmitBlock(EmitBlocks(blocks[..b], cfg), blocks[b], cfg)
  {
    assert blocks[..b + 1][..b] == blocks[..b];
  }

  lemma PackSnoc(shots: seq<Shot>, sents: seq<string>, k: nat, cfg: SplitConfig)
    requires k < |sents|
    ensures Pack(shots, sents[..k + 1], cfg) == PackStep(Pack(shots, sents[..k], cfg).0, Pack(shots, sents[..k], cfg).1, sents[k], cfg)
  {
    assert sents[..k + 1][..k] == sents[..k];
  }

  // ---------------------------------------------------------------- properties of the segmentation

  /**
   * A baseline shot: stripped, non-empty, untagged, and either `mixed` or a
   * `scene_break` whose text is the bare dash rule.
   */
  predicate BaselineShot(s: Shot) {
    && s.text != [] && Strip(s.text) == s.text && s.tags == None
    && (s.kind == Mixed || (s.kind == SceneBreak && DashRule(s.text)))
  }

  predicate GoodShots(shots: seq<Shot>) {
    NumberedInOrder(shots) && forall i :: 0 <= i < |shots| ==> BaselineShot(shots[i])
  }

  /** Every sentence is non-empty, stripped and holds no whitespace at its ends. */
  predicate Trimmed(s: string) {
    s == [] || (!IsSpace(s[0]) && !IsSpace(s[|s| - 1]))
  }

  lemma StrippedIsTrimmed(s: string)
    requires Strip(s) == s
    ensures Trimmed(s)
  {
    if s != [] {
      assert s[0] == LStrip(s)[0];
    }
  }

  lemma GoodShotsSnoc(shots: seq<Shot>, s: Shot)
    requires GoodShots(shots) && BaselineShot(s) && s.idx == |shots|
    ensures GoodShots(shots + [s])
  {
    forall i | 0 <= i < |shots| + 1 ensures (shots + [s])[i].idx == i && BaselineShot((shots + [s])[i]) {
      if i < |shots| {
        assert (shots + [s])[i] == shots[i];
      }
    }
  }

  /** `emit` of a `mixed` shot, or of a `scene_break` shot whose stripped text is a dash rule, keeps the shots good. */
  lemma EmitGood(shots: seq<Shot>, text: string, kind: Kind)
    requires GoodShots(shots)
    requires kind == Mixed || (kind == SceneBreak && DashRule(Strip(text)))
    ensures GoodShots(Emit(shots, text, kind))
  {
    var t := Strip(text);
    if t != [] {
      StripIdempotent(text);
      GoodShotsSnoc(shots, Shot(|shots|, kind, t, None));
    }
  }

  lemma {:induction false} PackGood(shots: seq<Shot>, sents: seq<string>, cfg: SplitConfig)
    requires GoodShots(shots)
    ensures GoodShots(Pack(shots, sents, cfg).0)
  {
    if sents != [] {
      PackGood(shots, sents[..|sents| - 1], cfg);
      var (out, buf) := Pack(shots, sents[..|sents| - 1], cfg);
      var s := sents[|sents| - 1];
      var b := if buf == [] then s else buf + s;
      EmitGood(out, b, Mixed);
    }
  }

  lemma EmitBlockGood(shots: seq<Shot>, block: Block, cfg: SplitConfig)
    requires GoodShots(shots) && GoodBlock(block)
    ensures GoodShots(EmitBlock(shots, block, cfg))
  {
    match block
    case SceneBreakBlock(t) =>
      StripTrimmed(t);
      EmitGood(shots, t, SceneBreak);
    case Paragraph(t) =>
      SentencesEmptyIffBlank(t);
      StripEmptyIffBlank(t);
      var sents := SentencesSpec(t);
      PackGood(shots, sents, cfg);
      var (out, buf) := Pack(shots, sents, cfg);
      EmitGood(out, buf, Mixed);
  }

  lemma {:induction false} EmitBlocksGood(blocks: seq<Block>, cfg: SplitConfig)
    requires AllGood(blocks)
    ensures GoodShots(EmitBlocks(blocks, cfg))
  {
    if blocks != [] {
      assert GoodBlock(blocks[|blocks| - 1]);
      assert AllGood(blocks[..|blocks| - 1]);
      EmitBlocksGood(blocks[..|blocks| - 1], cfg);
      EmitBlockGood(EmitBlocks(blocks[..|blocks| - 1], cfg), blocks[|blocks| - 1], cfg);
    }
  }

  /**
   * The baseline numbers its shots 0..N-1 in order; every shot is stripped,
   * non-empty and untagged; only `mixed` and `scene_break` shots occur (the
   * `narration` fallback is unreachable, because every gathered paragraph has a
   * sentence); a `scene_break` shot is the bare dash rule.
   */
  lemma BaselineShape(chapterText: string, cfg: SplitConfig)
    ensures var shots := SplitBaselineSpec(chapterText, cfg);
      && NumberedInOrder(shots)
      && (forall i :: 0 <= i < |shots| ==> BaselineShot(shots[i]))
  {
    GatherProps(SplitLines(chapterText));
    EmitBlocksGood(Gather(SplitLines(chapterText)), cfg);
  }

  lemma ConcatTextSnoc(shots: seq<Shot>, s: Shot)
    ensures ConcatText(shots + [s]) == ConcatText(shots) + s.text
  {
    ConcatTextAppend(shots, [s]);
    assert ConcatText([s]) == s.text + ConcatText([]);
    assert s.text + [] == s.text;
  }

  lemma EmitConserves(shots: seq<Shot>, text: string, kind: Kind)
    ensures NormalizeText(ConcatText(Emit(shots, text, kind))) == NormalizeText(ConcatText(shots)) + NormalizeText(text)
  {
    var t := Strip(text);
    NormalizeStrip(text);
    if t == [] {
      StripEmptyIffBlank(text);
      NormalizeEmptyIffBlank(text);
    } else {
      ConcatTextSnoc(shots, Shot(|shots|, kind, t, None));
      NormalizeConcat(ConcatText(shots), t);
    }
  }

  lemma PackStepConserves(out: seq<Shot>, buf: string, s: string, cfg: SplitConfig)
    ensures var (out', buf') := PackStep(out, buf, s, cfg);
      NormalizeText(ConcatText(out')) + NormalizeText(buf') == NormalizeText(ConcatText(out)) + (NormalizeText(buf) + NormalizeText(s))
  {
    var b := if buf == [] then s else buf + s;
    assert NormalizeText(b) == NormalizeText(buf) + NormalizeText(s) by {
      if buf == [] {
        assert NormalizeText(buf) == [];
      } else {
        NormalizeConcat(buf, s);
      }
    }
    var (out', buf') := PackStep(out, buf, s, cfg);
    if |b| >= cfg.softTarget || |b| >= cfg.hardCut {
      assert out' == Emit(out, b, Mixed) && buf' == [];
      EmitConserves(out, b, Mixed);
      assert NormalizeText(buf') == [];
    } else {
      assert out' == out && buf' == b;
    }
  }

  lemma {:induction false} PackConserves(shots: seq<Shot>, sents: seq<string>, cfg: SplitConfig)
    ensures var (out, buf) := Pack(shots, sents, cfg);
      NormalizeText(ConcatText(out)) + NormalizeText(buf) == NormalizeText(ConcatText(shots)) + NormalizeText(Concat(sents))
  {
    if sents != [] {
      var init := sents[..|sents| - 1];
      var s := sents[|sents| - 1];
      PackConserves(shots, init, cfg);
      var (out, buf) := Pack(shots, init, cfg);
      PackStepConserves(out, buf, s, cfg);
      ConcatSnoc(init, s);
      SnocInit(sents);
      NormalizeConcat(Concat(init), s);
      var a, b, c := NormalizeText(ConcatText(out)), NormalizeText(buf), NormalizeText(s);
      var x, y := NormalizeText(ConcatText(shots)), NormalizeText(Concat(init));
      AppendAssoc(a, b, c);
      AppendAssoc(x, y, c);
    }
  }

  lemma EmitBlockConserves(shots: seq<Shot>, block: Block, cfg: SplitConfig)
    ensures NormalizeText(ConcatText(EmitBlock(shots, block, cfg))) == NormalizeText(ConcatText(shots)) + NormalizeText(block.text)
  {
    match block
    case SceneBreakBlock(t) =>
      EmitConserves(shots, t, SceneBreak);
    case Paragraph(t) =>
      var sents := SentencesSpec(t);
      if sents == [] {
        EmitConserves(shots, t, Narration);
      } else {
        SentencesConserve(t);
        PackConserves(shots, sents, cfg);
        var (out, buf) := Pack(shots, sents, cfg);
        if Strip(buf) != [] {
          EmitConserves(out, buf, Mixed);
        } else {
          StripEmptyIffBlank(buf);
          NormalizeEmptyIffBlank(buf);
        }
      }
  }

  lemma {:induction false} EmitBlocksConserves(blocks: seq<Block>, cfg: SplitConfig)
    ensures NormalizeText(ConcatText(EmitBlocks(blocks, cfg))) == NormalizeText(BlocksText(blocks))
  {
    if blocks != [] {
      var init := blocks[..|blocks| - 1];
      EmitBlocksConserves(init, cfg);
      EmitBlockConserves(EmitBlocks(init, cfg), blocks[|blocks| - 1], cfg);
      NormalizeConcat(BlocksText(init), blocks[|blocks| - 1].text);
    }
  }

  /** The baseline's shots hold, in order, every non-space character of the chapter outside its headings. */
  lemma BaselineConservesText(chapterText: string, cfg: SplitConfig)
    ensures NormalizeText(ConcatText(SplitBaselineSpec(chapterText, cfg))) == NormalizeText(KeptText(SplitLines(chapterText)))
  {
    GatherProps(SplitLines(chapterText));
    EmitBlocksConserves(Gather(SplitLines(chapterText)), cfg);
  }

  /** Without headings the kept text is all of it. */
  lemma {:induction false} KeptTextAll(lines: seq<string>)
    requires forall i :: 0 <= i < |lines| ==> !IsChapterTitle(RStrip(lines[i]))
    ensures KeptText(lines) == Concat(lines)
  {
    if lines != [] {
      var init := lines[..|lines| - 1];
      var last := lines[|lines| - 1];
      KeptTextAll(init);
      ConcatSnoc(init, last);
      SnocInit(lines);
    }
  }

  /** Line boundaries are whitespace, so splitting into lines keeps the normalised text. */
  lemma {:induction false} SplitLinesNormalize(t: string)
    ensures NormalizeText(Concat(SplitLines(t))) == NormalizeText(t)
    decreases |t|
  {
    if t != [] {
      var k := LineEnd(t);
      if k == |t| {
        assert Concat([t]) == t + Concat([t][1..]);
        assert [t][1..] == [];
        assert t + [] == t;
      } else {
        var skip := if t[k] == '\r' && k + 1 < |t| && t[k + 1] == '\n' then 2 else 1;
        var a, b, rest := t[..k], t[k..k + skip], t[k + skip..];
        SplitLinesNormalize(rest);
        var lines := SplitLines(t);
        assert lines == [a] + SplitLines(rest);
        assert lines[1..] == SplitLines(rest);
        assert Concat(lines) == a + Concat(SplitLines(rest));
        Split3(t, k, k + skip);
        BoundaryIsBlank(t, k, skip);
        NormalizeEmptyIffBlank(b);
        NormalizeSkipBlank(a, b, rest, Concat(SplitLines(rest)));
      }
    }
  }

  /** Dropping a piece that normalises to nothing, between a line and the rest, keeps the normalised text. */
  lemma NormalizeSkipBlank(a: string, b: string, rest: string, tail: string)
    requires NormalizeText(b) == [] && NormalizeText(tail) == NormalizeText(rest)
    ensures NormalizeText(a + tail) == NormalizeText(a + b + rest)
  {
    NormalizeConcat(a + b, rest);
    NormalizeConcat(a, b);
    NormalizeConcat(a, tail);
    var na := NormalizeText(a);
    assert NormalizeText(a + b) == na + [] == na;
  }

  /** A chapter without heading lines is conserved whole: the shots' normalised text is the chapter's. */
  lemma BaselineConservesTitleFree(chapterText: string, cfg: SplitConfig)
    requires forall i :: 0 <= i < |SplitLines(chapterText)| ==> !IsChapterTitle(RStrip(SplitLines(chapterText)[i]))
    ensures NormalizeText(ConcatText(SplitBaselineSpec(chapterText, cfg))) == NormalizeText(chapterText)
  {
    BaselineConservesText(chapterText, cfg);
    KeptTextAll(SplitLines(chapterText));
    SplitLinesNormalize(chapterText);
  }

  /**
   * The packing invariant: `out` extends `shots` by `mixed` shots each at least
   * as long as the smaller threshold; the open buffer is trimmed and, unless
   * empty, shorter than both thresholds.
   */
  predicate PackInv(shots: seq<Shot>, out: seq<Shot>, buf: string, cfg: SplitConfig) {
    && |shots| <= |out| && out[..|shots|] == shots
    && (forall i :: |shots| <= i < |out| ==>
          out[i].kind == Mixed && (|out[i].text| >= cfg.softTarget || |out[i].text| >= cfg.hardCut))
    && (buf == [] || (|buf| < cfg.softTarget && |buf| < cfg.hardCut))
    && Trimmed(buf)
  }

  lemma PackStepLengths(shots: seq<Shot>, out: seq<Shot>, buf: string, s: string, cfg: SplitConfig)
    requires PackInv(shots, out, buf, cfg)
    requires s != [] && Strip(s) == s
    ensures var (out', buf') := PackStep(out, buf, s, cfg);
      PackInv(shots, out', buf', cfg)
  {
    StrippedIsTrimmed(s);
    var b := if buf == [] then s else buf + s;
    StripTrimmed(b);
    var (out', buf') := PackStep(out, buf, s, cfg);
    if out' != out {
      assert out' == out + [Shot(|out|, Mixed, b, None)];
      assert out'[..|shots|] == out[..|shots|];
    }
  }

  /**
   * Inside a paragraph, every shot the packing loop cuts is `mixed` and at least
   * as long as the smaller threshold; what is left for the final shot is shorter
   * than both (or empty).
   */
  lemma {:induction false} PackLengths(shots: seq<Shot>, sents: seq<string>, cfg: SplitConfig)
    requires AllStripped(sents)
    ensures var (out, buf) := Pack(shots, sents, cfg);
      PackInv(shots, out, buf, cfg)
  {
    if sents != [] {
      PackLengths(shots, sents[..|sents| - 1], cfg);
      var (out, buf) := Pack(shots, sents[..|sents| - 1], cfg);
      PackStepLengths(shots, out, buf, sents[|sents| - 1], cfg);
    } else {
      assert shots[..|shots|] == shots;
    }
  }

  /** `min_chars` is never consulted: the baseline is the same whatever its value. */
  lemma {:induction false} PackIgnoresMinChars(shots: seq<Shot>, sents: seq<string>, cfg: SplitConfig, m: int)
    ensures Pack(shots, sents, cfg) == Pack(shots, sents, cfg.(minChars := m))
  {
    if sents != [] {
      PackIgnoresMinChars(shots, sents[..|sents| - 1], cfg, m);
    }
  }

  lemma {:induction false} EmitBlocksIgnoresMinChars(blocks: seq<Block>, cfg: SplitConfig, m: int)
    ensures EmitBlocks(blocks, cfg) == EmitBlocks(blocks, cfg.(minChars := m))
  {
    if blocks != [] {
      var init := blocks[..|blocks| - 1];
      EmitBlocksIgnoresMinChars(init, cfg, m);
      var shots := EmitBlocks(init, cfg);
      match blocks[|blocks| - 1]
      case SceneBreakBlock(_) =>
      case Paragraph(t) =>
        PackIgnoresMinChars(shots, SentencesSpec(t), cfg, m);
    }
  }

  lemma MinCharsIgnored(chapterText: string, cfg: SplitConfig, m: int)
    ensures SplitBaselineSpec(chapterText, cfg) == SplitBaselineSpec(chapterText, cfg.(minChars := m))
  {
    EmitBlocksIgnoresMinChars(Gather(SplitLines(chapterText)), cfg, m);
  }

  // ---------------------------------------------------------------- scene breaks

  /** How many lines are scene-break rules (after `rstrip`). */
  function SceneLines(lines: seq<string>): nat {
    if lines == [] then 0
    else SceneLines(lines[..|lines| - 1]) + (if IsSceneBreak(RStrip(lines[|lines| - 1])) then 1 else 0)
  }

  function SceneBlocks(bs: seq<Block>): nat {
    if bs == [] then 0
    else SceneBlocks(bs[..|bs| - 1]) + (if bs[|bs| - 1].SceneBreakBlock? then 1 else 0)
  }

  function SceneShots(shots: seq<Shot>): nat {
    if shots == [] then 0
    else SceneShots(shots[..|shots| - 1]) + (if shots[|shots| - 1].kind == SceneBreak then 1 else 0)
  }

  lemma SceneBlocksSnoc(bs: seq<Block>, b: Block)
    ensures SceneBlocks(bs + [b]) == SceneBlocks(bs) + (if b.SceneBreakBlock? then 1 else 0)
  {
    assert (bs + [b])[..|bs|] == bs;
  }

  lemma SceneShotsSnoc(shots: seq<Shot>, s: Shot)
    ensures SceneShots(shots + [s]) == SceneShots(shots) + (if s.kind == SceneBreak then 1 else 0)
  {
    assert (shots + [s])[..|shots|] == shots;
  }

  /** A flush adds a paragraph or nothing. */
  lemma FlushScenes(out: seq<Block>, cur: seq<string>)
    ensures SceneBlocks(Flush(out, cur)) == SceneBlocks(out)
  {
    if cur != [] {
      var text := StripChars(Join("\n", cur), {'\n'});
      if Strip(text) != [] {
        SceneBlocksSnoc(out, Paragraph(text));
      }
    }
  }

  /** A scene-break rule is neither blank nor a chapter heading. */
  lemma SceneBreakLine(line: string)
    requires IsSceneBreak(line)
    ensures Strip(line) != [] && !IsChapterTitle(line)
  {
    var l := LStrip(line);
    RStripDropsSpaces(l);
    assert Strip(line)[0] == l[0];
  }

  /** One line adds a scene-break block exactly when it is a scene-break rule. */
  lemma GatherStepScenes(out: seq<Block>, cur: seq<string>, raw: string)
    ensures SceneBlocks(GatherStep(out, cur, raw).0) == SceneBlocks(out) + (if IsSceneBreak(RStrip(raw)) then 1 else 0)
  {
    var line := RStrip(raw);
    FlushScenes(out, cur);
    if IsSceneBreak(line) {
      SceneBreakLine(line);
      SceneBlocksSnoc(Flush(out, cur), SceneBreakBlock(Strip(line)));
    }
  }

  lemma {:induction false} GatherStateScenes(lines: seq<string>)
    ensures SceneBlocks(GatherState(lines).0) == SceneLines(lines)
  {
    if lines != [] {
      var init := lines[..|lines| - 1];
      GatherStateScenes(init);
      var (out, cur) := GatherState(init);
      GatherStepScenes(out, cur, lines[|lines| - 1]);
    }
  }

  /** Gathering yields one scene-break block per scene-break line. */
  lemma GatherScenes(lines: seq<string>)
    ensures SceneBlocks(Gather(lines)) == SceneLines(lines)
  {
    GatherStateScenes(lines);
    var (out, cur) := GatherState(lines);
    FlushScenes(out, cur);
  }

  lemma EmitScenes(shots: seq<Shot>, text: string, kind: Kind)
    ensures SceneShots(Emit(shots, text, kind)) == SceneShots(shots) + (if kind == SceneBreak && Strip(text) != [] then 1 else 0)
  {
    var t := Strip(text);
    if t != [] {
      SceneShotsSnoc(shots, Shot(|shots|, kind, t, None));
    }
  }

  /** The packing loop only cuts `mixed` shots. */
  lemma {:induction false} PackScenes(shots: seq<Shot>, sents: seq<string>, cfg: SplitConfig)
    ensures SceneShots(Pack(shots, sents, cfg).0) == SceneShots(shots)
  {
    if sents != [] {
      PackScenes(shots, sents[..|sents| - 1], cfg);
      var (out, buf) := Pack(shots, sents[..|sents| - 1], cfg);
      var s := sents[|sents| - 1];
      EmitScenes(out, if buf == [] then s else buf + s, Mixed);
    }
  }

  lemma EmitBlockScenes(shots: seq<Shot>, block: Block, cfg: SplitConfig)
    requires GoodBlock(block)
    ensures SceneShots(EmitBlock(shots, block, cfg)) == SceneShots(shots) + (if block.SceneBreakBlock? then 1 else 0)
  {
    match block
    case SceneBreakBlock(t) =>
      StripTrimmed(t);
      EmitScenes(shots, t, SceneBreak);
    case Paragraph(t) =>
      var sents := SentencesSpec(t);
      EmitScenes(shots, t, Narration);
      PackScenes(shots, sents, cfg);
      var (out, buf) := Pack(shots, sents, cfg);
      EmitScenes(out, buf, Mixed);
  }

  lemma {:induction false} EmitBlocksScenes(blocks: seq<Block>, cfg: SplitConfig)
    requires AllGood(blocks)
    ensures SceneShots(EmitBlocks(blocks, cfg)) == SceneBlocks(blocks)
  {
    if blocks != [] {
      var init := blocks[..|blocks| - 1];
      assert GoodBlock(blocks[|blocks| - 1]);
      assert AllGood(init);
      EmitBlocksScenes(init, cfg);
      EmitBlockScenes(EmitBlocks(init, cfg), blocks[|blocks| - 1], cfg);
    }
  }

  /**
   * The baseline cuts exactly one `scene_break` shot per scene-break line of the
   * chapter, so a chapter with a rule of em dashes has a `scene_break` shot.
   */
  lemma SceneBreaksKept(chapterText: string, cfg: SplitConfig)
    ensures SceneShots(SplitBaselineSpec(chapterText, cfg)) == SceneLines(SplitLines(chapterText))
  {
    var lines := SplitLines(chapterText);
    GatherProps(lines);
    GatherScenes(lines);
    EmitBlocksScenes(Gather(lines), cfg);
  }

  // ---------------------------------------------------------------- example

  /** A line without a boundary, then "\n": the line is the first of `splitlines`. */
  lemma SplitLinesCons(x: string, rest: string)
    requires forall i :: 0 <= i < |x| ==> x[i] !in LineBreaks
    ensures SplitLines(x + "\n" + rest) == [x] + SplitLines(rest)
  {
    var t := x + "\n" + rest;
    assert t[|x|] == '\n' && '\n' in LineBreaks;
    assert LineEnd(t) == |x|;
    assert t[..|x|] == x && t[|x| + 1..] == rest;
  }

  lemma SplitLinesOne(x: string)
    requires x != [] && forall i :: 0 <= i < |x| ==> x[i] !in LineBreaks
    ensures SplitLines(x) == [x]
  {
    assert LineEnd(x) == |x|;
  }

  /** No character is a line boundary. */
  predicate NoBreaks(x: string) {
    forall i :: 0 <= i < |x| ==> x[i] !in LineBreaks
  }

  /** Three lines joined by "\n" are split back into those three lines. */
  lemma SplitThree(a: string, b: string, c: string)
    requires NoBreaks(a) && NoBreaks(b) && NoBreaks(c) && c != []
    ensures SplitLines(a + "\n" + b + "\n" + c) == [a, b, c]
  {
    assert a + "\n" + (b + "\n" + c) == a + "\n" + b + "\n" + c;
    SplitTwo(b, c);
    SplitLinesCons(a, b + "\n" + c);
  }

  lemma SplitTwo(b: string, c: string)
    requires NoBreaks(b) && NoBreaks(c) && c != []
    ensures SplitLines(b + "\n" + c) == [b, c]
  {
    SplitLinesOne(c);
    SplitLinesCons(b, c);
  }

  lemma IndentedNoBreaks(w: string)
    requires NoBreaks(w)
    ensures NoBreaks(ParagraphIndent + w + "。")
  {
    var a := ParagraphIndent + w + "。";
    forall i | 0 <= i < |a| ensures a[i] !in LineBreaks {
      if 2 <= i < |a| - 1 {
        assert a[i] == w[i - 2];
      }
    }
  }

  /** A piece without a mark is all rest. */
  lemma {:induction false} CutAfterUnmarked(t: string, marks: set<char>)
    requires NoMark(t, marks)
    ensures CutAfter(t, marks).0 == [] && CutAfter(t, marks).1 == t
  {
    if t != [] {
      CutAfterUnmarked(t[..|t| - 1], marks);
      assert t[..|t| - 1] + [t[|t| - 1]] == t;
    }
  }

  /** A string that starts visibly and ends with "。" is its own strip. */
  lemma StopEnded(w: string)
    requires w != [] && !IsSpace(w[0])
    ensures LStrip(w + "。") == w + "。" && RStrip(w + "。") == w + "。"
  {
  }

  /** The indent is whitespace: `lstrip` drops it. */
  lemma IndentDropped(body: string)
    ensures LStrip(ParagraphIndent + body) == LStrip(body)
  {
    var a: string := ParagraphIndent + body;
    assert a[1..][1..] == body;
  }

  /** Neither end of an indented line ending in "。" is a newline. */
  lemma IndentedNoNewlineEnds(body: string)
    requires body != [] && body[|body| - 1] == '。'
    ensures StripChars(Join("\n", [ParagraphIndent + body]), {'\n'}) == ParagraphIndent + body
  {
    var a: string := ParagraphIndent + body;
    assert Join("\n", [a]) == a;
    assert LStripChars(a, {'\n'}) == a;
  }

  /** The first visible character of a prose line: neither a heading's nor a rule's; no sentence mark, no line boundary. */
  predicate ProseStart(w: string) {
    w != [] && !IsSpace(w[0]) && w[0] != '第' && w[0] != EmDash && NoMark(w, SentenceEnds) && NoBreaks(w)
  }

  /** A line of prose that `_gather_paragraphs` keeps whole. */
  predicate ProseLine(a: string) {
    && RStrip(a) == a && Strip(a) != [] && !IsChapterTitle(a) && !IsSceneBreak(a)
    && StripChars(Join("\n", [a]), {'\n'}) == a
  }

  /** A paragraph that `_split_sentences` reads as the one stripped sentence `s`. */
  predicate OneSentence(a: string, s: string) {
    SentencesSpec(a) == [s] && Strip(s) == s && s != []
  }

  /** A text shorter than both thresholds. */
  predicate Short(s: string, cfg: SplitConfig) {
    |s| < cfg.softTarget && |s| < cfg.hardCut
  }

  /** A rule line that `_gather_paragraphs` reads as a scene break. */
  predicate RuleLine(b: string) {
    RStrip(b) == b && Strip(b) == b && b != [] && IsSceneBreak(b) && !IsChapterTitle(b)
  }

  /** An indented line `w` + "。" is kept whole by `_gather_paragraphs`. */
  lemma ProseLineKept(w: string)
    requires ProseStart(w)
    ensures ProseLine(ParagraphIndent + w + "。")
  {
    var body := w + "。";
    var a: string := ParagraphIndent + body;
    assert ParagraphIndent + w + "。" == a;
    StopEnded(w);
    IndentDropped(body);
    IndentedNoNewlineEnds(body);
    assert a[|a| - 1] == '。';
    assert body[0] == w[0];
  }

  /** A mark closes an unmarked rest into one piece. */
  lemma CutAfterClosed(t: string, m: char, marks: set<char>)
    requires NoMark(t, marks) && m in marks
    ensures CutAfter(t + [m], marks).0 == [t + [m]] && CutAfter(t + [m], marks).1 == []
  {
    CutAfterUnmarked(t, marks);
    assert (t + [m])[..|t|] == t;
  }

  /** ... and read by `_split_sentences` as the single sentence `w` + "。". */
  lemma ProseLineSentence(w: string)
    requires ProseStart(w)
    ensures OneSentence(ParagraphIndent + w + "。", w + "。")
  {
    var body := w + "。";
    var a: string := ParagraphIndent + body;
    assert ParagraphIndent + w + "。" == a == (ParagraphIndent + w) + ['。'];
    StopEnded(w);
    IndentDropped(body);
    UnmarkedIndent(w);
    CutAfterClosed(ParagraphIndent + w, '。', SentenceEnds);
    assert RawSentences(a) == [a];
    assert [a][1..] == [];
  }

  lemma UnmarkedIndent(w: string)
    requires NoMark(w, SentenceEnds)
    ensures NoMark(ParagraphIndent + w, SentenceEnds)
  {
    var t := ParagraphIndent + w;
    forall i | 0 <= i < |t| ensures t[i] !in SentenceEnds {
      if i >= 2 {
        assert t[i] == w[i - 2];
      }
    }
  }

  /** A rule of em dashes holds no line boundary. */
  lemma DashRuleNoBreaks(rule: string)
    requires DashRule(rule)
    ensures NoBreaks(rule)
  {
    assert EmDash !in LineBreaks;
  }

  /** A rule of em dashes is read as a scene break and as nothing else. */
  lemma DashRuleLine(b: string)
    requires DashRule(b)
    ensures RuleLine(b)
  {
    assert LStrip(b) == b && RStrip(b) == b;
  }

  /** A prose line opens the first paragraph. */
  lemma GatherFirstStep(w: string)
    requires ProseStart(w)
    ensures var a := ParagraphIndent + w + "。"; GatherStep([], [], a) == ([], [a])
  {
    var a := ParagraphIndent + w + "。";
    ProseLineKept(w);
    assert GatherStep([], [], a).0 == [] && GatherStep([], [], a).1 == [a];
  }

  /** A rule closes the open paragraph and is recorded after it. */
  lemma GatherRule(w: string, b: string)
    requires ProseStart(w) && DashRule(b)
    ensures var a := ParagraphIndent + w + "。"; GatherStep([], [a], b) == ([Paragraph(a), SceneBreakBlock(b)], [])
  {
    var a := ParagraphIndent + w + "。";
    FlushOne(w);
    DashRuleLine(b);
    GatherRuleParts(a, b);
  }

  lemma FlushOne(w: string)
    requires ProseStart(w)
    ensures var a := ParagraphIndent + w + "。"; Flush([], [a]) == [Paragraph(a)]
  {
    ProseLineKept(w);
  }

  lemma GatherRuleParts(a: string, b: string)
    requires Flush([], [a]) == [Paragraph(a)] && RuleLine(b)
    ensures GatherStep([], [a], b).0 == [Paragraph(a), SceneBreakBlock(b)] && GatherStep([], [a], b).1 == []
  {
  }

  /** A prose line after a rule opens a new paragraph. */
  lemma GatherAfterRule(out: seq<Block>, w: string)
    requires ProseStart(w)
    ensures var c := ParagraphIndent + w + "。"; GatherStep(out, [], c) == (out, [c])
  {
    var c := ParagraphIndent + w + "。";
    ProseLineKept(w);
    assert GatherStep(out, [], c).0 == out && GatherStep(out, [], c).1 == [c];
  }

  /** The last paragraph is flushed at the end. */
  lemma FlushLast(out: seq<Block>, w: string)
    requires ProseStart(w)
    ensures var c := ParagraphIndent + w + "。"; Flush(out, [c]) == out + [Paragraph(c)]
  {
    ProseLineKept(w);
  }

  lemma GatherTwo(lines: seq<string>, a: string, b: string, pa: seq<Block>)
    requires |lines| > 1 && lines[0] == a && lines[1] == b
    requires GatherStep([], [], a) == ([], [a]) && GatherStep([], [a], b) == (pa, [])
    ensures GatherState(lines[..2]) == (pa, [])
  {
    GatherStateSnoc(lines, 1);
    GatherStateSnoc(lines, 0);
    assert lines[..0] == [];
  }

  /** A paragraph line, a rule, a paragraph line: two paragraphs around a scene break. */
  lemma BlocksAroundRule(w1: string, rule: string, w2: string)
    requires ProseStart(w1) && DashRule(rule) && ProseStart(w2)
    ensures var a, c := ParagraphIndent + w1 + "。", ParagraphIndent + w2 + "。";
      Gather([a, rule, c]) == [Paragraph(a), SceneBreakBlock(rule), Paragraph(c)]
  {
    var a, c := ParagraphIndent + w1 + "。", ParagraphIndent + w2 + "。";
    var lines, pa := [a, rule, c], [Paragraph(a), SceneBreakBlock(rule)];
    calc {
      GatherState(lines);
      { assert lines[..3] == lines; }
      GatherState(lines[..3]);
      { GatherStateSnoc(lines, 2); }
      GatherStep(GatherState(lines[..2]).0, GatherState(lines[..2]).1, c);
      { GatherFirstStep(w1);
        GatherRule(w1, rule);
        GatherTwo(lines, a, rule, pa); }
      GatherStep(pa, [], c);
      { GatherAfterRule(pa, w2); }
      (pa, [c]);
    }
    FlushLast(pa, w2);
  }

  /** A short one-sentence paragraph becomes one `mixed` shot. */
  lemma EmitOneSentence(shots: seq<Shot>, a: string, s: string, cfg: SplitConfig)
    requires OneSentence(a, s) && Short(s, cfg)
    ensures EmitBlock(shots, Paragraph(a), cfg) == shots + [Shot(|shots|, Mixed, s, None)]
  {
    assert [s][..0] == [];
    assert Pack(shots, [s], cfg).0 == shots && Pack(shots, [s], cfg).1 == s;
  }

  /** Short one-sentence paragraphs each become one `mixed` shot; the rule becomes a `scene_break` shot. */
  lemma EmitAroundRule(a: string, b: string, c: string, sa: string, sc: string, cfg: SplitConfig)
    requires OneSentence(a, sa) && RuleLine(b) && OneSentence(c, sc) && Short(sa, cfg) && Short(sc, cfg)
    ensures EmitBlocks([Paragraph(a), SceneBreakBlock(b), Paragraph(c)], cfg)
      == [Shot(0, Mixed, sa, None), Shot(1, SceneBreak, b, None), Shot(2, Mixed, sc, None)]
  {
    var blocks := [Paragraph(a), SceneBreakBlock(b), Paragraph(c)];
    var two := [Shot(0, Mixed, sa, None), Shot(1, SceneBreak, b, None)];
    calc {
      EmitBlocks(blocks, cfg);
      { assert blocks[..3] == blocks; }
      EmitBlocks(blocks[..3], cfg);
      { EmitBlocksSnoc(blocks, 2, cfg); }
      EmitBlock(EmitBlocks(blocks[..2], cfg), Paragraph(c), cfg);
      { EmitFirstBlock(blocks, a, sa, cfg);
        EmitTwoBlocks(blocks, b, sa, cfg); }
      EmitBlock(two, Paragraph(c), cfg);
      { EmitOneSentence(two, c, sc, cfg); }
      two + [Shot(2, Mixed, sc, None)];
    }
  }

  lemma EmitTwoBlocks(blocks: seq<Block>, b: string, s: string, cfg: SplitConfig)
    requires |blocks| > 1 && blocks[1] == SceneBreakBlock(b) && Strip(b) == b != []
    requires EmitBlocks(blocks[..1], cfg) == [Shot(0, Mixed, s, None)]
    ensures EmitBlocks(blocks[..2], cfg) == [Shot(0, Mixed, s, None), Shot(1, SceneBreak, b, None)]
  {
    EmitBlocksSnoc(blocks, 1, cfg);
  }

  lemma EmitFirstBlock(blocks: seq<Block>, a: string, s: string, cfg: SplitConfig)
    requires |blocks| > 0 && blocks[0] == Paragraph(a) && OneSentence(a, s) && Short(s, cfg)
    ensures EmitBlocks(blocks[..1], cfg) == [Shot(0, Mixed, s, None)]
  {
    EmitBlocksSnoc(blocks, 0, cfg);
    EmitOneSentence([], a, s, cfg);
  }

  lemma LinesAroundRule(w1: string, rule: string, w2: string)
    requires ProseStart(w1) && DashRule(rule) && ProseStart(w2)
    ensures var a, c := ParagraphIndent + w1 + "。", ParagraphIndent + w2 + "。";
      SplitLines(a + "\n" + rule + "\n" + c) == [a, rule, c]
  {
    IndentedNoBreaks(w1);
    IndentedNoBreaks(w2);
    DashRuleNoBreaks(rule);
    SplitThree(ParagraphIndent + w1 + "。", rule, ParagraphIndent + w2 + "。");
  }

  lemma ShotsAroundRule(w1: string, rule: string, w2: string, cfg: SplitConfig)
    requires ProseStart(w1) && DashRule(rule) && ProseStart(w2) && Short(w1 + "。", cfg) && Short(w2 + "。", cfg)
    ensures var a, c := ParagraphIndent + w1 + "。", ParagraphIndent + w2 + "。";
      EmitBlocks([Paragraph(a), SceneBreakBlock(rule), Paragraph(c)], cfg)
        == [Shot(0, Mixed, w1 + "。", None), Shot(1, SceneBreak, rule, None), Shot(2, Mixed, w2 + "。", None)]
  {
    ProseLineSentence(w1);
    ProseLineSentence(w2);
    DashRuleLine(rule);
    EmitAroundRule(ParagraphIndent + w1 + "。", rule, ParagraphIndent + w2 + "。", w1 + "。", w2 + "。", cfg);
  }

  /**
   * Two indented one-sentence paragraphs, each with its "。" shorter than both
   * thresholds, around a rule of em dashes: one `mixed` shot each and the rule
   * as a `scene_break` shot between them.
   */
  lemma ParagraphsAroundRule(w1: string, rule: string, w2: string, cfg: SplitConfig)
    requires ProseStart(w1) && DashRule(rule) && ProseStart(w2) && Short(w1 + "。", cfg) && Short(w2 + "。", cfg)
    ensures var a, c := ParagraphIndent + w1 + "。", ParagraphIndent + w2 + "。";
      SplitBaselineSpec(a + "\n" + rule + "\n" + c, cfg)
        == [Shot(0, Mixed, w1 + "。", None), Shot(1, SceneBreak, rule, None), Shot(2, Mixed, w2 + "。", None)]
  {
    LinesAroundRule(w1, rule, w2);
    BlocksAroundRule(w1, rule, w2);
    ShotsAroundRule(w1, rule, w2, cfg);
  }

  /** The scene-break example's lines meet every requirement of `ParagraphsAroundRule`. */
  lemma SceneBreakExampleLines()
    ensures ProseStart("前文") && DashRule("————") && ProseStart("后文")
    ensures Short("前文" + "。", SplitConfig(2, 20, 50)) && Short("后文" + "。", SplitConfig(2, 20, 50))
    ensures (ParagraphIndent + "前文" + "。") + "\n" + "————" + "\n" + (ParagraphIndent + "后文" + "。") == "　　前文。\n————\n　　后文。"
    ensures "前文" + "。" == "前文。" && "后文" + "。" == "后文。"
  {
  }

  /**
   * The scene-break example: "　　前文。", "————" and "　　后文。" on three lines,
   * thresholds 2, 20 and 50, give three shots, the middle one the scene break.
   */
  lemma SceneBreakExample()
    ensures SplitBaselineSpec("　　前文。\n————\n　　后文。", SplitConfig(2, 20, 50))
      == [Shot(0, Mixed, "前文。", None), Shot(1, SceneBreak, "————", None), Shot(2, Mixed, "后文。", None)]
  {
    SceneBreakExampleLines();
    ParagraphsAroundRule("前文", "————", "后文", SplitConfig(2, 20, 50));
  }
}
