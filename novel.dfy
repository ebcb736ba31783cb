/**
 * `split_novel_to_chapters` end to end (scripts/split_novel_to_chapters.py):
 * the text's lines are cleaned, advertisement lines dropped, blank runs
 * collapsed, the lines partitioned at the chapter headings, and the front
 * matter collapsed once more.
 */
module Novel {
  import opened Results
  import opened Chars
  import opened Chapters
  import opened Splitting

  /**
   * The cleaning loop: every line cleaned, the lines `isAd` flags left out.  It
   * is stated for any such test; the script uses `LooksLikeAdLine`.
   */
  function CleanLines(unescape: string -> string, isAd: string -> bool, raws: seq<string>): seq<string>
    decreases |raws|
  {
    if raws == [] then []
    else
      var line := CleanLine(unescape, raws[|raws| - 1]);
      CleanLines(unescape, isAd, raws[..|raws| - 1]) + (if isAd(line) then [] else [line])
  }

  /** The front matter and the chapter segments of a text. */
  function SplitNovel(text: string, unescape: string -> string): (seq<string>, seq<ChapterSeg>) {
    var lines := NormalizeBlanks(CleanLines(unescape, LooksLikeAdLine, SplitLines(text)));
    var parts := Partition(DetectChapter, lines);
    (NormalizeBlanks(parts.0), parts.1)
  }

  /** `flush_cur`, on the loop's variables. */
  method FlushCur(front: seq<string>, segs: seq<ChapterSeg>, cur: seq<string>, head: Option<Heading>)
    returns (front': seq<string>, segs': seq<ChapterSeg>, cur': seq<string>)
    ensures Split(front', segs', cur', head) == Flush(Split(front, segs, cur, head))
  {
    front', segs', cur' := front, segs, cur;
    if cur == [] {
      return;
    }
    if head.None? {
      front' := front + cur;
    } else {
      segs' := segs + [ChapterSeg(head.value.no, head.value.title, cur)];
    }
    cur' := [];
  }

  /** The cleaning loop of `split_novel_to_chapters`. */
  method CleanAll(unescape: string -> string, isAd: string -> bool, raws: seq<string>) returns (lines: seq<string>)
    ensures lines == CleanLines(unescape, isAd, raws)
  {
    lines := [];
    for i := 0 to |raws|
      invariant lines == CleanLines(unescape, isAd, raws[..i])
    {
      assert raws[..i + 1][..i] == raws[..i];
      var line := CleanLine(unescape, raws[i]);
      if isAd(line) {
        continue;
      }
      lines := lines + [line];
    }
    assert raws[..|raws|] == raws;
  }

  /** The partition loop of `split_novel_to_chapters` and its last flush. */
  method PartitionLines(detect: Detector, lines: seq<string>) returns (front: seq<string>, segs: seq<ChapterSeg>)
    ensures (front, segs) == Partition(detect, lines)
  {
    front, segs := [], [];
    var cur: seq<string> := [];
    var head: Option<Heading> := None;
    for i := 0 to |lines|
      invariant FeedAll(detect, Split(front, segs, cur, head), lines[i..]) == FeedAll(detect, SplitStart, lines)
    {
      assert lines[i..][1..] == lines[i + 1..];
      var ch := detect(lines[i]);
      if ch.Some? {
        front, segs, cur := FlushCur(front, segs, cur, head);
        head := ch;
        cur := [];
        continue;
      }
      cur := cur + [lines[i]];
    }
    front, segs, cur := FlushCur(front, segs, cur, head);
  }

  /** `split_novel_to_chapters`. */
  method SplitNovelToChapters(text: string, unescape: string -> string) returns (front: seq<string>, segs: seq<ChapterSeg>)
    ensures (front, segs) == SplitNovel(text, unescape)
  {
    var lines := CleanAll(unescape, LooksLikeAdLine, SplitLines(text));
    lines := NormalizeBlankLines(lines);
    front, segs := PartitionLines(DetectChapter, lines);
    front := NormalizeBlankLines(front);
  }

  // ---------------------------------------------------------------- properties

  /** A cleaned line: not flagged, no trailing whitespace. */
  predicate Cleaned(isAd: string -> bool, line: string) {
    !isAd(line) && (line == [] || !IsSpace(line[|line| - 1]))
  }

  /** A line of the output: cleaned and not a heading. */
  predicate OutLine(line: string) {
    Cleaned(LooksLikeAdLine, line) && !IsHeading(line)
  }

  lemma EmptyNotHeading()
    ensures !IsHeading("")
  {
    assert LStrip("") == "";
  }

  lemma EmptyNotAd()
    ensures !LooksLikeAdLine("")
  {
    BlankIsNoAd("");
  }

  lemma EmptyLineOut()
    ensures OutLine("")
  {
    EmptyNotAd();
    EmptyNotHeading();
  }

  /** The cleaning loop keeps only cleaned lines. */
  lemma {:induction false} CleanLinesShape(unescape: string -> string, isAd: string -> bool, raws: seq<string>)
    ensures forall i :: 0 <= i < |CleanLines(unescape, isAd, raws)| ==> Cleaned(isAd, CleanLines(unescape, isAd, raws)[i])
    decreases |raws|
  {
    if raws != [] {
      var init := CleanLines(unescape, isAd, raws[..|raws| - 1]);
      var line := CleanLine(unescape, raws[|raws| - 1]);
      var tail := if isAd(line) then [] else [line];
      CleanLinesShape(unescape, isAd, raws[..|raws| - 1]);
      var r := init + tail;
      forall i | 0 <= i < |r| ensures Cleaned(isAd, r[i]) {
        if i < |init| {
          assert r[i] == init[i];
        } else {
          assert tail == [line] && r[i] == line;
        }
      }
    }
  }

  /** Collapsing blank lines keeps every line cleaned. */
  lemma NormalizeKeepsCleaned(lines: seq<string>)
    requires forall i :: 0 <= i < |lines| ==> Cleaned(LooksLikeAdLine, lines[i])
    ensures var r := NormalizeBlanks(lines); forall i :: 0 <= i < |r| ==> Cleaned(LooksLikeAdLine, r[i])
  {
    NormalizeBlanksFrom(lines);
    EmptyLineOut();
  }

  /** Collapsing blank lines keeps every line an output line. */
  lemma NormalizeKeepsOut(lines: seq<string>)
    requires forall i :: 0 <= i < |lines| ==> OutLine(lines[i])
    ensures var r := NormalizeBlanks(lines); forall i :: 0 <= i < |r| ==> OutLine(r[i])
  {
    NormalizeBlanksFrom(lines);
    EmptyLineOut();
  }

  /** The lines that reach the partition are cleaned, and no blank run is left in them. */
  lemma CleanedInput(text: string, unescape: string -> string)
    ensures var lines := NormalizeBlanks(CleanLines(unescape, LooksLikeAdLine, SplitLines(text)));
      (forall i :: 0 <= i < |lines| ==> Cleaned(LooksLikeAdLine, lines[i])) && NoBlankRun(lines) && Trimmed(lines)
  {
    var cleaned := CleanLines(unescape, LooksLikeAdLine, SplitLines(text));
    CleanLinesShape(unescape, LooksLikeAdLine, SplitLines(text));
    NormalizeKeepsCleaned(cleaned);
    NormalizeBlanksShape(cleaned);
  }

  /** The front matter has no blank run, no blank line at either end, and every line is an output line. */
  lemma SplitNovelFront(text: string, unescape: string -> string)
    ensures var front := SplitNovel(text, unescape).0;
      && NoBlankRun(front) && Trimmed(front) && BlanksEmpty(front)
      && forall i :: 0 <= i < |front| ==> OutLine(front[i])
  {
    var lines := NormalizeBlanks(CleanLines(unescape, LooksLikeAdLine, SplitLines(text)));
    var f := Partition(DetectChapter, lines).0;
    CleanedInput(text, unescape);
    PartitionConserves(DetectChapter, lines);
    NonHeadingsFrom(DetectChapter, lines);
    assert forall i :: 0 <= i < |f| ==> OutLine(f[i]) by {
      forall i | 0 <= i < |f| ensures OutLine(f[i]) {
        assert f[i] == NonHeadings(DetectChapter, lines)[i];
      }
    }
    NormalizeKeepsOut(f);
    NormalizeBlanksShape(f);
  }

  /** Every chapter segment has lines, and each is an output line. */
  lemma SplitNovelSegments(text: string, unescape: string -> string)
    ensures var segs := SplitNovel(text, unescape).1;
      forall i :: 0 <= i < |segs| ==> segs[i].lines != [] && forall j :: 0 <= j < |segs[i].lines| ==> OutLine(segs[i].lines[j])
  {
    CleanedInput(text, unescape);
    SegmentLinesOut(NormalizeBlanks(CleanLines(unescape, LooksLikeAdLine, SplitLines(text))));
  }

  /** Partitioning cleaned lines gives segments with lines, each an output line. */
  lemma SegmentLinesOut(lines: seq<string>)
    requires forall k :: 0 <= k < |lines| ==> Cleaned(LooksLikeAdLine, lines[k])
    ensures var segs := Partition(DetectChapter, lines).1;
      forall i :: 0 <= i < |segs| ==> segs[i].lines != [] && forall j :: 0 <= j < |segs[i].lines| ==> OutLine(segs[i].lines[j])
  {
    var parts := Partition(DetectChapter, lines);
    var f, segs := parts.0, parts.1;
    PartitionConserves(DetectChapter, lines);
    PartitionShape(DetectChapter, lines);
    forall i, j | 0 <= i < |segs| && 0 <= j < |segs[i].lines| ensures OutLine(segs[i].lines[j]) {
      FlattenHas(segs, i, j);
      var x := segs[i].lines[j];
      assert x in f + Flatten(segs);
      KeptLineOut(lines, x);
    }
  }

  /** A line kept by the partition, from cleaned lines, is an output line. */
  lemma KeptLineOut(lines: seq<string>, x: string)
    requires forall k :: 0 <= k < |lines| ==> Cleaned(LooksLikeAdLine, lines[k])
    requires x in NonHeadings(DetectChapter, lines)
    ensures OutLine(x)
  {
    NonHeadingsFrom(DetectChapter, lines);
    var r := NonHeadings(DetectChapter, lines);
    var n :| 0 <= n < |r| && r[n] == x;
    assert x in lines && !IsHead(DetectChapter, x);
  }

  /** The lines of `TwoChaptersExample` that are not headings. */
  lemma TwoChaptersProse()
    ensures DetectChapter("　　正文第一段。") == None && DetectChapter("　　正文第二段。") == None
    ensures DetectChapter("") == None
  {
    EmptyNotHeading();
    ProseIsNoHeading();
    assert "　　正文第二段。" == "　　" + "正文第二段。";
    IndentedProse("正文第二段。");
  }

  /**
   * Two chapters, each with a blank line and a paragraph under its heading:
   * two segments numbered 1 and 2 and no front matter.
   */
  lemma TwoChaptersExample()
    ensures Partition(DetectChapter, ["第一章 初入", "", "　　正文第一段。", "", "第二章 李家", "", "　　正文第二段。"])
      == ([], [ChapterSeg(1, "第一章 初入", ["", "　　正文第一段。", ""]), ChapterSeg(2, "第二章 李家", ["", "　　正文第二段。"])])
  {
    FirstChapterExample();
    SecondChapterExample();
    TwoChaptersProse();
    TwoChaptersOf(DetectChapter, "第一章 初入", "　　正文第一段。", "第二章 李家", "　　正文第二段。",
                  Heading(1, "第一章 初入"), Heading(2, "第二章 李家"));
  }
}
