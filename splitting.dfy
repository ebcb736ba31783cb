/**
 * The partition of a cleaned novel into front matter and chapter segments
 * (`split_novel_to_chapters` in scripts/split_novel_to_chapters.py): every
 * heading closes the open segment and opens a new one; lines before the first
 * heading are front matter; a heading followed directly by another heading
 * yields no segment.
 *
 * The partition is stated for any heading detector `detect`; the script uses
 * `DetectChapter`.  The lemmas here hold whatever the detector is.
 */
module Splitting {
  import opened Results
  import opened Chars
  import opened Chapters

  /** `ChapterSeg`: a chapter's number, its display title and its lines. */
  datatype ChapterSeg = ChapterSeg(no: nat, title: string, lines: seq<string>)

  /**
   * The state of the partition loop: the front matter and the segments so far,
   * `cur_lines`, and the open heading (`cur_no`/`cur_title`; none before the
   * first heading).
   */
  datatype Split = Split(front: seq<string>, segs: seq<ChapterSeg>, cur: seq<string>, head: Option<Heading>)

  const SplitStart := Split([], [], [], None)

  /** A heading detector: the heading a line opens, if any. */
  type Detector = string -> Option<Heading>

  predicate IsHead(detect: Detector, line: string) {
    detect(line).Some?
  }

  /** `flush_cur`: pending lines go to the front matter before the first heading, otherwise into a new segment. */
  function Flush(p: Split): Split {
    if p.cur == [] then p
    else if p.head.None? then p.(front := p.front + p.cur, cur := [])
    else p.(segs := p.segs + [ChapterSeg(p.head.value.no, p.head.value.title, p.cur)], cur := [])
  }

  /** One iteration of the loop over the lines. */
  function Feed(detect: Detector, p: Split, line: string): Split {
    match detect(line)
    case Some(h) => Flush(p).(head := Some(h))
    case None => p.(cur := p.cur + [line])
  }

  /** The loop over the remaining lines. */
  function FeedAll(detect: Detector, p: Split, lines: seq<string>): Split
    decreases |lines|
  {
    if lines == [] then p else FeedAll(detect, Feed(detect, p, lines[0]), lines[1..])
  }

  /** The loop from the empty state, then the last flush. */
  function Partition(detect: Detector, lines: seq<string>): (seq<string>, seq<ChapterSeg>) {
    var q := Flush(FeedAll(detect, SplitStart, lines));
    (q.front, q.segs)
  }

  // ---------------------------------------------------------------- reference partition

  /** The index of the first heading, or the length when there is none. */
  function FirstHeading(detect: Detector, lines: seq<string>): (k: nat)
    ensures k <= |lines|
    ensures forall i :: 0 <= i < k ==> !IsHead(detect, lines[i])
    ensures k < |lines| ==> IsHead(detect, lines[k])
    decreases |lines|
  {
    if lines == [] || IsHead(detect, lines[0]) then 0 else 1 + FirstHeading(detect, lines[1..])
  }

  /** Each heading with the lines up to the next heading, when there are any. */
  function Segments(detect: Detector, lines: seq<string>): seq<ChapterSeg>
    requires lines == [] || IsHead(detect, lines[0])
    decreases |lines|
  {
    if lines == [] then []
    else
      var h := detect(lines[0]).value;
      var rest := lines[1..];
      var k := FirstHeading(detect, rest);
      (if k == 0 then [] else [ChapterSeg(h.no, h.title, rest[..k])]) + Segments(detect, rest[k..])
  }

  /** The lines before the first heading, and the segments from there on. */
  function ReferencePartition(detect: Detector, lines: seq<string>): (seq<string>, seq<ChapterSeg>) {
    var k := FirstHeading(detect, lines);
    (lines[..k], Segments(detect, lines[k..]))
  }

  lemma ConcatAssoc<T>(a: seq<T>, b: seq<T>, c: seq<T>)
    ensures a + b + c == a + (b + c)
  {
  }

  /** Lines that are not headings just accumulate. */
  lemma {:induction false} FeedBody(detect: Detector, p: Split, xs: seq<string>)
    requires forall i :: 0 <= i < |xs| ==> !IsHead(detect, xs[i])
    ensures FeedAll(detect, p, xs) == p.(cur := p.cur + xs)
    decreases |xs|
  {
    if xs == [] {
      assert p.cur + xs == p.cur;
    } else {
      FeedBody(detect, p.(cur := p.cur + [xs[0]]), xs[1..]);
      assert p.cur + [xs[0]] + xs[1..] == p.cur + xs;
    }
  }

  lemma {:induction false} FeedAllConcat(detect: Detector, p: Split, a: seq<string>, b: seq<string>)
    ensures FeedAll(detect, p, a + b) == FeedAll(detect, FeedAll(detect, p, a), b)
    decreases |a|
  {
    if a == [] {
      assert a + b == b;
    } else {
      assert (a + b)[0] == a[0];
      assert (a + b)[1..] == a[1..] + b;
      FeedAllConcat(detect, Feed(detect, p, a[0]), a[1..], b);
    }
  }

  /** The first segment of a heading with its body: none when the body is empty. */
  function SegmentOf(h: Heading, body: seq<string>): seq<ChapterSeg> {
    if body == [] then [] else [ChapterSeg(h.no, h.title, body)]
  }

  /** The state after a heading and its body: the segment that heading opened, not yet closed. */
  function Opened(detect: Detector, p: Split, lines: seq<string>): Split
    requires lines != [] && IsHead(detect, lines[0])
  {
    Flush(p).(head := detect(lines[0]), cur := lines[1..][..FirstHeading(detect, lines[1..])])
  }

  /** The lines after a heading's body. */
  function After(detect: Detector, lines: seq<string>): seq<string>
    requires lines != []
  {
    lines[1..][FirstHeading(detect, lines[1..])..]
  }

  /** Feeding a heading and the lines up to the next one opens a segment holding those lines. */
  lemma FeedHeadingAndBody(detect: Detector, p: Split, lines: seq<string>)
    requires lines != [] && IsHead(detect, lines[0])
    ensures FeedAll(detect, p, lines) == FeedAll(detect, Opened(detect, p, lines), After(detect, lines))
  {
    var rest := lines[1..];
    var k := FirstHeading(detect, rest);
    var body := rest[..k];
    var q0 := Flush(p).(head := detect(lines[0]));
    assert FeedAll(detect, p, lines) == FeedAll(detect, q0, rest);
    assert rest == body + rest[k..];
    FeedAllConcat(detect, q0, body, rest[k..]);
    FeedBody(detect, q0, body);
    assert q0.cur + body == body;
  }

  /** The reference segments of lines that start with a heading. */
  lemma SegmentsUnfold(detect: Detector, p: Split, lines: seq<string>)
    requires lines != [] && IsHead(detect, lines[0])
    ensures Segments(detect, lines) == SegmentOf(detect(lines[0]).value, Opened(detect, p, lines).cur) + Segments(detect, After(detect, lines))
  {
  }

  /** Closing the segment a heading opened adds that segment, if it has lines. */
  lemma FlushOpened(detect: Detector, p: Split, lines: seq<string>)
    requires lines != [] && IsHead(detect, lines[0])
    ensures var q, body := Flush(Opened(detect, p, lines)), Opened(detect, p, lines).cur;
      q.front == Flush(p).front && q.segs == Flush(p).segs + SegmentOf(detect(lines[0]).value, body)
  {
    if Opened(detect, p, lines).cur == [] {
      assert Flush(p).segs + [] == Flush(p).segs;
    }
  }

  /** One step of `SegmentsFrom`: what holds from the next heading on gives what holds from this one. */
  lemma SegmentsStep(detect: Detector, p: Split, lines: seq<string>)
    requires lines != [] && IsHead(detect, lines[0])
    requires var q1, after := Opened(detect, p, lines), After(detect, lines);
      var q := Flush(FeedAll(detect, q1, after));
      q.front == Flush(q1).front && q.segs == Flush(q1).segs + Segments(detect, after)
    ensures var q := Flush(FeedAll(detect, p, lines));
      q.front == Flush(p).front && q.segs == Flush(p).segs + Segments(detect, lines)
  {
    var h := detect(lines[0]).value;
    var body := Opened(detect, p, lines).cur;
    var after := After(detect, lines);
    FeedHeadingAndBody(detect, p, lines);
    FlushOpened(detect, p, lines);
    SegmentsUnfold(detect, p, lines);
    ConcatAssoc(Flush(p).segs, SegmentOf(h, body), Segments(detect, after));
  }

  /** From a heading on, the loop and the last flush add exactly the reference segments. */
  lemma {:induction false} SegmentsFrom(detect: Detector, p: Split, lines: seq<string>)
    requires lines == [] || IsHead(detect, lines[0])
    ensures var q := Flush(FeedAll(detect, p, lines));
      q.front == Flush(p).front && q.segs == Flush(p).segs + Segments(detect, lines)
    decreases |lines|
  {
    if lines == [] {
      assert Flush(p).segs + [] == Flush(p).segs;
    } else {
      SegmentsFrom(detect, Opened(detect, p, lines), After(detect, lines));
      SegmentsStep(detect, p, lines);
    }
  }

  /** The partition loop computes the reference partition. */
  lemma PartitionIsReference(detect: Detector, lines: seq<string>)
    ensures Partition(detect, lines) == ReferencePartition(detect, lines)
  {
    var k := FirstHeading(detect, lines);
    var pre := lines[..k];
    assert lines == pre + lines[k..];
    FeedAllConcat(detect, SplitStart, pre, lines[k..]);
    FeedBody(detect, SplitStart, pre);
    assert [] + pre == pre;
    var p := SplitStart.(cur := pre);
    assert FeedAll(detect, SplitStart, lines) == FeedAll(detect, p, lines[k..]);
    SegmentsFrom(detect, p, lines[k..]);
    assert Flush(p).front == pre && Flush(p).segs == [];
    assert [] + Segments(detect, lines[k..]) == Segments(detect, lines[k..]);
  }

  // ---------------------------------------------------------------- what the partition keeps

  /** The lines that are not headings, in order. */
  function NonHeadings(detect: Detector, lines: seq<string>): seq<string>
    decreases |lines|
  {
    if lines == [] then []
    else (if IsHead(detect, lines[0]) then [] else [lines[0]]) + NonHeadings(detect, lines[1..])
  }

  /** The headings the lines open, in order. */
  function HeadingsOf(detect: Detector, lines: seq<string>): seq<Heading>
    decreases |lines|
  {
    if lines == [] then []
    else (if IsHead(detect, lines[0]) then [detect(lines[0]).value] else []) + HeadingsOf(detect, lines[1..])
  }

  /** All segment lines, segment after segment. */
  function Flatten(segs: seq<ChapterSeg>): seq<string> {
    if segs == [] then [] else segs[0].lines + Flatten(segs[1..])
  }

  lemma {:induction false} NonHeadingsConcat(detect: Detector, a: seq<string>, b: seq<string>)
    ensures NonHeadings(detect, a + b) == NonHeadings(detect, a) + NonHeadings(detect, b)
    decreases |a|
  {
    if a == [] {
      assert a + b == b;
    } else {
      assert (a + b)[0] == a[0];
      assert (a + b)[1..] == a[1..] + b;
      NonHeadingsConcat(detect, a[1..], b);
      ConcatAssoc(if IsHead(detect, a[0]) then [] else [a[0]], NonHeadings(detect, a[1..]), NonHeadings(detect, b));
    }
  }

  lemma {:induction false} NonHeadingsOfBody(detect: Detector, xs: seq<string>)
    requires forall i :: 0 <= i < |xs| ==> !IsHead(detect, xs[i])
    ensures NonHeadings(detect, xs) == xs
    decreases |xs|
  {
    if xs != [] {
      NonHeadingsOfBody(detect, xs[1..]);
      assert [xs[0]] + xs[1..] == xs;
    }
  }

  lemma {:induction false} FlattenConcat(a: seq<ChapterSeg>, b: seq<ChapterSeg>)
    ensures Flatten(a + b) == Flatten(a) + Flatten(b)
    decreases |a|
  {
    if a == [] {
      assert a + b == b;
    } else {
      assert (a + b)[0] == a[0];
      assert (a + b)[1..] == a[1..] + b;
      FlattenConcat(a[1..], b);
      ConcatAssoc(a[0].lines, Flatten(a[1..]), Flatten(b));
    }
  }

  /** The lines of the segment a heading opens. */
  lemma FlattenSegmentOf(h: Heading, body: seq<string>)
    ensures Flatten(SegmentOf(h, body)) == body
  {
    if body != [] {
      assert SegmentOf(h, body)[1..] == [];
      assert body + [] == body;
    }
  }

  /** After a heading, the lines that are not headings are its body and those after the next heading. */
  lemma NonHeadingsUnfold(detect: Detector, lines: seq<string>)
    requires lines != [] && IsHead(detect, lines[0])
    ensures NonHeadings(detect, lines) == Opened(detect, SplitStart, lines).cur + NonHeadings(detect, After(detect, lines))
  {
    var k := FirstHeading(detect, lines[1..]);
    var body := lines[1..][..k];
    var after := lines[1..][k..];
    assert lines[1..] == body + after;
    NonHeadingsConcat(detect, body, after);
    NonHeadingsOfBody(detect, body);
    assert NonHeadings(detect, lines) == [] + NonHeadings(detect, lines[1..]);
  }

  /** The segments hold every line that is not a heading, in order. */
  lemma {:induction false} SegmentsConserve(detect: Detector, lines: seq<string>)
    requires lines == [] || IsHead(detect, lines[0])
    ensures Flatten(Segments(detect, lines)) == NonHeadings(detect, lines)
    decreases |lines|
  {
    if lines != [] {
      var body := Opened(detect, SplitStart, lines).cur;
      var after := After(detect, lines);
      var h := detect(lines[0]).value;
      SegmentsConserve(detect, after);
      SegmentsUnfold(detect, SplitStart, lines);
      FlattenConcat(SegmentOf(h, body), Segments(detect, after));
      FlattenSegmentOf(h, body);
      NonHeadingsUnfold(detect, lines);
    }
  }

  /** Front matter and segments together hold every line that is not a heading, in order. */
  lemma PartitionConserves(detect: Detector, lines: seq<string>)
    ensures Partition(detect, lines).0 + Flatten(Partition(detect, lines).1) == NonHeadings(detect, lines)
  {
    PartitionIsReference(detect, lines);
    var k := FirstHeading(detect, lines);
    assert lines == lines[..k] + lines[k..];
    NonHeadingsConcat(detect, lines[..k], lines[k..]);
    NonHeadingsOfBody(detect, lines[..k]);
    SegmentsConserve(detect, lines[k..]);
  }

  /** A segment has lines, and none of them is a heading. */
  predicate SegmentOk(detect: Detector, s: ChapterSeg) {
    s.lines != [] && forall j :: 0 <= j < |s.lines| ==> !IsHead(detect, s.lines[j])
  }

  lemma {:induction false} SegmentsOk(detect: Detector, lines: seq<string>)
    requires lines == [] || IsHead(detect, lines[0])
    ensures var segs := Segments(detect, lines); forall i :: 0 <= i < |segs| ==> SegmentOk(detect, segs[i])
    decreases |lines|
  {
    if lines != [] {
      var k := FirstHeading(detect, lines[1..]);
      var body := lines[1..][..k];
      var after := lines[1..][k..];
      var h := detect(lines[0]).value;
      SegmentsOk(detect, after);
      SegmentsUnfold(detect, SplitStart, lines);
      var first := SegmentOf(h, body);
      assert forall i :: 0 <= i < |first| ==> SegmentOk(detect, first[i]);
    }
  }

  /** After a heading, the headings are that one and those from the next heading on. */
  lemma HeadingsOfUnfold(detect: Detector, lines: seq<string>)
    requires lines != [] && IsHead(detect, lines[0])
    ensures HeadingsOf(detect, lines) == [detect(lines[0]).value] + HeadingsOf(detect, After(detect, lines))
  {
    var k := FirstHeading(detect, lines[1..]);
    var body := lines[1..][..k];
    var after := lines[1..][k..];
    assert lines[1..] == body + after;
    HeadingsOfConcat(detect, body, after);
    HeadingsOfBody(detect, body);
    assert [] + HeadingsOf(detect, after) == HeadingsOf(detect, after);
  }

  /** Every segment carries a heading the lines open, and there are at most as many segments as headings. */
  lemma {:induction false} SegmentsHeadings(detect: Detector, lines: seq<string>)
    requires lines == [] || IsHead(detect, lines[0])
    ensures var segs, hs := Segments(detect, lines), HeadingsOf(detect, lines);
      |segs| <= |hs| && forall i :: 0 <= i < |segs| ==> Heading(segs[i].no, segs[i].title) in hs
    decreases |lines|
  {
    if lines != [] {
      var body := Opened(detect, SplitStart, lines).cur;
      var after := After(detect, lines);
      var h := detect(lines[0]).value;
      SegmentsHeadings(detect, after);
      SegmentsUnfold(detect, SplitStart, lines);
      HeadingsOfUnfold(detect, lines);
    }
  }

  lemma {:induction false} HeadingsOfConcat(detect: Detector, a: seq<string>, b: seq<string>)
    ensures HeadingsOf(detect, a + b) == HeadingsOf(detect, a) + HeadingsOf(detect, b)
    decreases |a|
  {
    if a == [] {
      assert a + b == b;
    } else {
      assert (a + b)[0] == a[0];
      assert (a + b)[1..] == a[1..] + b;
      HeadingsOfConcat(detect, a[1..], b);
      ConcatAssoc(if IsHead(detect, a[0]) then [detect(a[0]).value] else [], HeadingsOf(detect, a[1..]), HeadingsOf(detect, b));
    }
  }

  lemma {:induction false} HeadingsOfBody(detect: Detector, xs: seq<string>)
    requires forall i :: 0 <= i < |xs| ==> !IsHead(detect, xs[i])
    ensures HeadingsOf(detect, xs) == []
    decreases |xs|
  {
    if xs != [] {
      HeadingsOfBody(detect, xs[1..]);
    }
  }

  /** Front matter holds no heading; every segment has lines, none a heading, under a heading of the input. */
  lemma PartitionShape(detect: Detector, lines: seq<string>)
    ensures var front, segs, hs := Partition(detect, lines).0, Partition(detect, lines).1, HeadingsOf(detect, lines);
      && (forall i :: 0 <= i < |front| ==> !IsHead(detect, front[i]))
      && (forall i :: 0 <= i < |segs| ==> SegmentOk(detect, segs[i]))
      && |segs| <= |hs| && (forall i :: 0 <= i < |segs| ==> Heading(segs[i].no, segs[i].title) in hs)
  {
    PartitionIsReference(detect, lines);
    var k := FirstHeading(detect, lines);
    assert lines == lines[..k] + lines[k..];
    HeadingsOfConcat(detect, lines[..k], lines[k..]);
    HeadingsOfBody(detect, lines[..k]);
    assert [] + HeadingsOf(detect, lines[k..]) == HeadingsOf(detect, lines[k..]);
    SegmentsOk(detect, lines[k..]);
    SegmentsHeadings(detect, lines[k..]);
  }

  /** What is kept is a line of the input that is not a heading. */
  lemma {:induction false} NonHeadingsFrom(detect: Detector, lines: seq<string>)
    ensures var r := NonHeadings(detect, lines); forall i :: 0 <= i < |r| ==> r[i] in lines && !IsHead(detect, r[i])
    decreases |lines|
  {
    if lines != [] {
      NonHeadingsFrom(detect, lines[1..]);
      var r := NonHeadings(detect, lines);
      var first := if IsHead(detect, lines[0]) then [] else [lines[0]];
      forall i | 0 <= i < |r| ensures r[i] in lines && !IsHead(detect, r[i]) {
        if i >= |first| {
          assert r[i] == NonHeadings(detect, lines[1..])[i - |first|];
        }
      }
    }
  }

  /** A segment line is one of the flattened lines. */
  lemma {:induction false} FlattenHas(segs: seq<ChapterSeg>, i: nat, j: nat)
    requires i < |segs| && j < |segs[i].lines|
    ensures segs[i].lines[j] in Flatten(segs)
    decreases i
  {
    if i == 0 {
      assert Flatten(segs)[j] == segs[0].lines[j];
    } else {
      FlattenHas(segs[1..], i - 1, j);
      assert segs[1..][i - 1] == segs[i];
    }
  }

  /** Two headings, each followed by lines that are not headings, give two segments and no front matter. */
  lemma TwoSegments(detect: Detector, a: string, body1: seq<string>, b: string, body2: seq<string>)
    requires detect(a).Some? && detect(b).Some?
    requires forall i :: 0 <= i < |body1| ==> !IsHead(detect, body1[i])
    requires forall i :: 0 <= i < |body2| ==> !IsHead(detect, body2[i])
    requires body1 != [] && body2 != []
    ensures Partition(detect, [a] + body1 + [b] + body2)
      == ([], [ChapterSeg(detect(a).value.no, detect(a).value.title, body1),
               ChapterSeg(detect(b).value.no, detect(b).value.title, body2)])
  {
    var h1, h2 := detect(a).value, detect(b).value;
    var lines := [a] + body1 + [b] + body2;
    assert lines == [a] + (body1 + ([b] + body2));
    FeedAllConcat(detect, SplitStart, [a], body1 + ([b] + body2));
    var p1 := Split([], [], [], Some(h1));
    assert FeedAll(detect, SplitStart, [a]) == p1;
    FeedAllConcat(detect, p1, body1, [b] + body2);
    FeedBody(detect, p1, body1);
    var p2 := Split([], [], body1, Some(h1));
    FeedAllConcat(detect, p2, [b], body2);
    var p3 := Split([], [ChapterSeg(h1.no, h1.title, body1)], [], Some(h2));
    assert FeedAll(detect, p2, [b]) == p3;
    FeedBody(detect, p3, body2);
    assert [] + body1 == body1 && [] + body2 == body2;
    assert FeedAll(detect, SplitStart, lines) == FeedAll(detect, p3, body2);
    assert Flush(p3.(cur := body2)).segs == [ChapterSeg(h1.no, h1.title, body1), ChapterSeg(h2.no, h2.title, body2)];
  }

  /** Two headings, each with a blank line and a paragraph under it. */
  lemma TwoChaptersOf(detect: Detector, a: string, x: string, b: string, y: string, ha: Heading, hb: Heading)
    requires detect(a) == Some(ha) && detect(b) == Some(hb)
    requires detect(x) == None && detect(y) == None && detect("") == None
    ensures Partition(detect, [a, "", x, "", b, "", y])
      == ([], [ChapterSeg(ha.no, ha.title, ["", x, ""]), ChapterSeg(hb.no, hb.title, ["", y])])
  {
    var body1 := ["", x, ""];
    var body2 := ["", y];
    TwoSegments(detect, a, body1, b, body2);
    assert [a] + body1 + [b] + body2 == [a, "", x, "", b, "", y];
  }
}
