# novel2comic: a Dafny model of the shot segmentation core

novel2comic turns the chapters of a Chinese web novel into a shot script for a
comic video. This project models the text-processing core of that pipeline and
proves what it promises:

- the **baseline segmenter** (`split_baseline`). It cuts a chapter into
  paragraphs, then sentences, then numbered shots. Rules of em dashes become
  `scene_break` shots, and chapter headings are dropped.
- the **patch interpreter** (`apply_patch`). It runs an edit script of `merge`,
  `split`, `move_tail` and `tag` operations over a shot sequence, then
  renumbers the shots.
- the **validator**. It checks the patch's shape, op names and constraint
  types. After application it checks text conservation (the shots' text with
  all whitespace removed) and the shot count.
- the **refinement skill** (`RefineShotSplitSkill.run`). It asks a language
  model for a patch, validates and applies it, and falls back to the baseline
  on any failure.
- the **chapter splitter** (`split_novel_to_chapters`). It cleans lines, drops
  advertisement lines, collapses blank lines, reads Chinese numerals and parts
  the novel at chapter headings.
- the **indent normaliser** (`normalize_lines`). Titles lose their indent and
  every other line gets two ideographic spaces.
- the **manifest's status record**: stage, done and failed marks, last error.

Modules follow the program:

| module | models |
|---|---|
| `Results` | Option, Result and pass/fail outcomes. Python exceptions are the `Err` and `Fail` cases. |
| `Chars` | the Python string operations used (isspace, strip, find, splitlines, join) |
| `JsonValue` | JSON values as the model sees them |
| `Shots` | `Shot` and `Constraints` |
| `Baseline` | split_baseline.py |
| `Validator` | validator.py |
| `Applier` | applier.py |
| `Skill` | skill.py |
| `Chapters`, `Splitting`, `Novel` | split_novel_to_chapters.py |
| `Indent` | normalize_chapter_indent.py |
| `Manifest` | manifest.py |

The code is modelled in its own form:

- Loops that grow buffers and lists are methods with loop invariants. Each is
  proved equal to a function that specifies it (for example
  `Baseline.SplitBaseline` and `SplitBaselineSpec`).
- Properties are lemmas about those functions.
- The manifest is a class whose methods update its fields.
- The language model is an oracle parameter, a function from the request to a
  JSON reply or an error.
- `html.unescape` is a function parameter.
- Regexes are hand-written predicates. `\s` is Python's `str.isspace`, which
  includes the ideographic space U+3000 and the newline.

The headline theorems:

- `Applier.ApplyPatchConserves`: every patch that applies keeps the shots'
  whitespace-free text. As a result, the conservation check never rejects an
  applied patch (`Skill.AcceptIff`).
- `Skill.RunSuccess`: an accepted refinement conserves the baseline's text, is
  numbered 0..N-1 and has a count in the widened window.
- `Skill.RunFallback`: any failure returns the baseline unchanged.
- `Baseline.BaselineConservesText`: the baseline keeps every non-space
  character of the chapter outside its heading lines, in order.

The code and the design description disagree on one point. The description
says the shots' text equals the chapter text, modulo whitespace. The code drops
chapter-heading lines (split_baseline.py:91-94). The model follows the code:
`Baseline.BaselineConservesText` compares with the lines that are not headings.
`Baseline.BaselineConservesTitleFree` gives the full equality for a chapter
without headings.

## Model

| member | source | states |
|---|---|---|
| Baseline.SplitSentences | src/novel2comic/core/split_baseline.py:50-63 | the loop computes `SentencesSpec`: pieces cut after each 。！？；, keeping the mark, plus a non-blank unterminated rest; then stripped, and blanks dropped |
| Baseline.StripNonBlankStripped | src/novel2comic/core/split_baseline.py:63 | every sentence is non-empty and its own strip |
| Baseline.SentencesConserve | src/novel2comic/core/split_baseline.py:50-63 | the sentences hold every non-space character of the paragraph, in order |
| Baseline.SentencesMarks | src/novel2comic/core/split_baseline.py:56-62 | every sentence but the last ends with 。！？；, and no sentence holds a mark before its end |
| Baseline.SentencesEmptyIffBlank | src/novel2comic/core/split_baseline.py:61-63 | a paragraph yields no sentence exactly when it is blank |
| Baseline.GatherParagraphs | src/novel2comic/core/split_baseline.py:66-108 | the loop with its nested flush computes `Gather`, the fold of the per-line step followed by a final flush |
| Baseline.GatherLine | src/novel2comic/core/split_baseline.py:85-105 | one pass of the line loop: a blank line flushes; a heading flushes and is dropped; a rule flushes and is recorded stripped; an indented line flushes an open paragraph; other lines are appended |
| Baseline.FlushProps | src/novel2comic/core/split_baseline.py:76-83 | a flush keeps the open lines' normalised text and only adds a non-blank paragraph |
| Baseline.EmitGood | src/novel2comic/core/split_baseline.py:121-127 | emitting a `mixed` text or a dash-rule `scene_break` keeps the shot list numbered in order and made of baseline shots |
| Baseline.GatherProps | src/novel2comic/core/split_baseline.py:66-108 | the blocks hold the normalised text of the non-heading lines, and each block is a non-blank paragraph or a bare dash rule |
| Baseline.GatherScenes | src/novel2comic/core/split_baseline.py:96-99 | exactly one scene-break block per line that is a rule of em dashes |
| Baseline.SceneBreakLine | src/novel2comic/core/split_baseline.py:26-27 | a rule of em dashes is neither blank nor a chapter heading, so the gatherer reaches its scene-break branch |
| Baseline.DashRuleLine | src/novel2comic/core/split_baseline.py:26 | a bare rule of em dashes is kept unchanged by both strips and read as a scene break, not a heading |
| Baseline.EmitShot | src/novel2comic/core/split_baseline.py:121-127 | `emit` appends the stripped text as the next shot, numbered by the count so far, unless it is empty; the counter stays equal to the length |
| Baseline.PackSentences | src/novel2comic/core/split_baseline.py:140-157 | the sentence loop computes `Pack`: append, then cut at the soft target and only then at the hard cut |
| Baseline.SplitBaseline | src/novel2comic/core/split_baseline.py:111-163 | computes `SplitBaselineSpec`; the shots are numbered 0..N-1, stripped, untagged and non-empty; they conserve the non-heading text |
| Baseline.BaselineShape | src/novel2comic/core/split_baseline.py:118-127 | idx values are 0..N-1 in order; every shot is stripped, non-empty, untagged, and either `mixed` or a `scene_break` holding a bare dash rule (so the narration fallback at 136-137 is never taken) |
| Baseline.BaselineConservesText | src/novel2comic/core/split_baseline.py:129-163 | the shots' normalised text equals that of the chapter lines other than headings |
| Baseline.SplitLinesNormalize | src/novel2comic/core/split_baseline.py:115 | `splitlines` drops only whitespace |
| Baseline.BaselineConservesTitleFree | src/novel2comic/core/split_baseline.py:111-163 | a chapter without heading lines is conserved whole, modulo whitespace |
| Baseline.PackLengths | src/novel2comic/core/split_baseline.py:147-157 | every shot cut inside a paragraph is `mixed` and at least min(soft_target, hard_cut) long; the open buffer is trimmed and, unless empty, shorter than both |
| Baseline.PackIgnoresMinChars | src/novel2comic/core/split_baseline.py:159-161 | the packing loop's result does not depend on min_chars |
| Baseline.MinCharsIgnored | src/novel2comic/core/split_baseline.py:30-34 | the whole baseline is the same whatever min_chars is |
| Baseline.SceneBreaksKept | src/novel2comic/core/split_baseline.py:129-132 | one `scene_break` shot per rule line of the chapter |
| Baseline.BlocksAroundRule | src/novel2comic/core/split_baseline.py:85-107 | a prose line, a rule and a prose line gather into two paragraphs around a scene break |
| Baseline.EmitAroundRule | src/novel2comic/core/split_baseline.py:129-161 | short one-sentence paragraphs become one `mixed` shot each; a rule becomes a `scene_break` shot |
| Baseline.ParagraphsAroundRule | src/novel2comic/core/split_baseline.py:111-163 | two indented one-sentence paragraphs shorter than both thresholds, around a dash rule, give exactly three shots: mixed, scene_break, mixed |
| Baseline.SceneBreakExample | tests/test_core.py:38-43 | "　　前文。", "————", "　　后文。" on three lines with thresholds (2, 20, 50) give exactly the shots 0 `mixed` "前文。", 1 `scene_break` "————" and 2 `mixed` "后文。", all untagged |
| Validator.NormalizeNoSpace | src/novel2comic/skills/refine_shot_split/validator.py:22-28 | the normalised text holds no whitespace and is no longer than the text |
| Validator.NormalizeSpaceFree | src/novel2comic/skills/refine_shot_split/validator.py:22-28 | a text without whitespace is its own normalisation |
| Validator.NormalizeIdempotent | src/novel2comic/skills/refine_shot_split/validator.py:22-28 | normalisation is idempotent |
| Validator.NormalizeEmptyIffBlank | src/novel2comic/skills/refine_shot_split/validator.py:22-28 | the normalised text is empty exactly when the text is blank |
| Validator.NormalizeConcat | src/novel2comic/skills/refine_shot_split/validator.py:22-28 | normalisation distributes over concatenation |
| Validator.NormalizeStrip | src/novel2comic/skills/refine_shot_split/validator.py:22-28 | stripping, on either side or both, does not change the normalised text |
| Validator.ConcatTextAppend | src/novel2comic/skills/refine_shot_split/validator.py:31-32 | the text of two shot sequences is the text of the first followed by that of the second |
| Validator.ValidatePatchShape | src/novel2comic/skills/refine_shot_split/validator.py:35-47 | passes exactly when the patch is an object holding the four keys (others allowed), the supported version and a list of ops |
| Validator.ValidateOpsSyntax | src/novel2comic/skills/refine_shot_split/validator.py:50-59 | passes exactly when every op is an object whose "op" is merge, split, move_tail or tag |
| Validator.ValidateConstraints | src/novel2comic/skills/refine_shot_split/validator.py:62-80 | passes exactly when the block is an object with the three keys, min/max ints (a bool passes) and forbid a bool; the caller's constraints are not compared |
| Validator.ValidateTextConservation | src/novel2comic/skills/refine_shot_split/validator.py:83-88 | passes exactly when the normalised concatenations are equal |
| Validator.ValidateCountRange | src/novel2comic/skills/refine_shot_split/validator.py:91-105 | fails exactly when the count is outside the window; supplied effective bounds replace the configured ones |
| Validator.RewrittenTextFailsConservation | tests/test_skills.py:30-35 | "原文" against "改写了" fails the conservation check |
| Validator.TwentyShotsPassRelaxedWindow | tests/test_skills.py:18-23 | twenty shots pass the window [20, 120] and fail the configured [60, 120] |
| Applier.SplitSentences | src/novel2comic/skills/refine_shot_split/applier.py:22-44 | the loop computes `SentenceParts`: cut after 。！？； and ”, blank pieces dropped, a non-blank rest kept |
| Applier.SentencePartsProps | src/novel2comic/skills/refine_shot_split/applier.py:25-44 | no part is blank, and the parts hold every non-space character of the text in order |
| Applier.IntField | src/novel2comic/skills/refine_shot_split/applier.py:86-87 | an op field is read when present and a Python int (a bool counts), with its value |
| Applier.IntOf | src/novel2comic/skills/refine_shot_split/applier.py:115 | `int(op["sentences"])` on an int or bool gives its value; it succeeds otherwise only on a string |
| Applier.IntOfString | src/novel2comic/skills/refine_shot_split/applier.py:115 | a string converts exactly when, once stripped, it is an optional sign and a run of ASCII digits in which single underscores may stand between two digits; an unsigned run gives its value, underscores skipped |
| Applier.IntOfSigned | src/novel2comic/skills/refine_shot_split/applier.py:115 | whitespace around a digit run, with or without a sign, is ignored; "+" keeps the value and "-" negates it |
| Applier.IntOfPadded | src/novel2comic/skills/refine_shot_split/applier.py:115 | whitespace around a text that starts and ends with other characters does not change what `int()` makes of it |
| Applier.IntOfSignedRun | src/novel2comic/skills/refine_shot_split/applier.py:115 | "+" before a digit run keeps its value and "-" negates it |
| Applier.IntOfAscii | src/novel2comic/skills/refine_shot_split/applier.py:115 | a string of ASCII digits converts to its decimal value |
| Applier.IntOfUnderscore | src/novel2comic/skills/refine_shot_split/applier.py:115 | "1_0" converts to 10 |
| Applier.IntOfSignedUnderscore | src/novel2comic/skills/refine_shot_split/applier.py:115 | " -1_0 " converts to -10 |
| Applier.IntOfBadUnderscores | src/novel2comic/skills/refine_shot_split/applier.py:115 | a doubled, leading or trailing underscore is refused: "1__0", "_1" and "1_" |
| Applier.DecodeOp | src/novel2comic/skills/refine_shot_split/applier.py:50-69 | a decoded op comes from an object with an "op" key; a known op exactly when that key names one of the four operations; a tag op passes its "tags" value (an empty object when absent) on to `dict.update` unchecked |
| Applier.FindByIdx | src/novel2comic/skills/refine_shot_split/applier.py:78-82 | the first position holding the idx; "idx not found" exactly when no shot holds it |
| Applier.MergeOkIff | src/novel2comic/skills/refine_shot_split/applier.py:85-103 | merge succeeds exactly when start <= end, both are found in order with the positions as far apart as the idx values, and no spanned shot is a scene break under the rule |
| Applier.MergeResult | src/novel2comic/skills/refine_shot_split/applier.py:105-109 | the span becomes one untagged `mixed` shot with idx = start holding the span's text in order; the rest stays; the length drops by end - start; the text is unchanged |
| Applier.SplitOkIff | src/novel2comic/skills/refine_shot_split/applier.py:145-161 | split succeeds exactly when the idx is found, `at` occurs and neither half is blank |
| Applier.SplitResult | src/novel2comic/skills/refine_shot_split/applier.py:152-166 | the cut falls right after the first occurrence; the halves concatenate to the text, take idx and idx + 1 and keep kind and tags; the length grows by one; the text is unchanged |
| Applier.SplitFinds | src/novel2comic/skills/refine_shot_split/applier.py:78-82 | after a split of shot d in shots numbered in order, idx d is found at position d and idx d + 1 at the new right half, ahead of the old shot d + 1; both halves keep the old kind |
| Applier.MoveTailOkIff | src/novel2comic/skills/refine_shot_split/applier.py:112-138 | move_tail succeeds exactly when to = from + 1, both are found at adjacent positions, neither is a scene break under the rule, and 0 < k < number of parts (the empty-shot check never fires) |
| Applier.MoveTailResult | src/novel2comic/skills/refine_shot_split/applier.py:130-142 | the source keeps the first parts; the destination becomes the last k parts plus its old text; nothing else changes; the normalised text is kept |
| Applier.MoveTailStep | src/novel2comic/skills/refine_shot_split/applier.py:112-142 | rewriting the two records in the working list step by step computes `MoveTailOp` |
| Applier.MoveTailParts | src/novel2comic/skills/refine_shot_split/applier.py:131-142 | the count check, then the two field updates, compute the surgery `MoveTailAt` |
| Applier.UpdatePair | src/novel2comic/skills/refine_shot_split/applier.py:175 | one element of the pair form of `dict.update` is accepted exactly when it is a two-item list with a string key or a two-character string |
| Applier.UpdatePairs | src/novel2comic/skills/refine_shot_split/applier.py:175 | a pair list is accepted exactly when every element is an accepted pair |
| Applier.UpdateEntries | src/novel2comic/skills/refine_shot_split/applier.py:175 | `dict.update` accepts exactly an object (its entries), the empty string (no entries) and a list of accepted pairs |
| Applier.UpdatePairsLast | src/novel2comic/skills/refine_shot_split/applier.py:175 | a key takes the value of its last pair: later pairs overwrite earlier ones |
| Applier.UpdatePairsKeys | src/novel2comic/skills/refine_shot_split/applier.py:175 | every key written comes from one of the pairs |
| Applier.TagProps | src/novel2comic/skills/refine_shot_split/applier.py:169-177 | tag succeeds exactly when the idx is found and `dict.update` accepts the value; the shot's tags become the old ones (none: empty) updated by the new entries, new values winning; nothing else changes |
| Applier.TagOtherForms | src/novel2comic/skills/refine_shot_split/applier.py:174-175 | a list of pairs, a list of two-character strings, an empty list and an empty string tag as the matching object does; a non-empty string and null are refused |
| Applier.ApplyPatch | src/novel2comic/skills/refine_shot_split/applier.py:47-75 | copies the shots, runs the ops in order (stopping at the first failure, an unknown op included), then renumbers in place; computes `ApplyPatchSpec`, and a result is numbered 0..M-1 |
| Applier.ApplyOpConserves | src/novel2comic/skills/refine_shot_split/applier.py:105-177 | every op that succeeds keeps the normalised text; all but move_tail keep the text exactly |
| Applier.ApplyJsonOpConserves | src/novel2comic/skills/refine_shot_split/applier.py:50-69 | an op that runs is a well-formed op and keeps the normalised text |
| Applier.ApplyOpsConserves | src/novel2comic/skills/refine_shot_split/applier.py:50-69 | a run of ops that succeeds held only well-formed ops and kept the normalised text |
| Applier.ApplyPatchConserves | src/novel2comic/skills/refine_shot_split/applier.py:47-75 | a patch that applies passes the conservation and op-syntax checks, and its result is numbered in order |
| Applier.EmptyPatchIsIdentity | src/novel2comic/skills/refine_shot_split/applier.py:48-50 | on shots numbered in order and without an empty tag map, an empty "ops" list or a missing "ops" key gives the shots back unchanged |
| Applier.SplitThenMerge | src/novel2comic/skills/refine_shot_split/applier.py:85-166 | split(d, at) then merge(d, d + 1) restores the sequence, the shot now `mixed` and untagged; the merge is refused when the shot was a scene break and the rule is on |
| Applier.TagTestCase | tests/test_skills.py:39-43 | the tag test: the only shot's tags become {"emotion": "calm"} |
| Applier.SplitTestCase | tests/test_skills.py:45-51 | the split test: "前半。后半。" split at "前半。" gives the shots "前半。" and "后半。" |
| Skill.Run | src/novel2comic/skills/refine_shot_split/skill.py:48-72 | never fails: a fallback carries no patch and the baseline; a success carries the model's patch and no error |
| Skill.BaselineInWindow | src/novel2comic/skills/refine_shot_split/skill.py:51-53 | the effective window contains the configured window and the baseline's own count |
| Skill.AcceptIff | src/novel2comic/skills/refine_shot_split/skill.py:56-68 | a patch is accepted exactly when shape, op syntax and constraint types pass, it applies, and the count lies in the effective window; conservation never rejects an applied patch |
| Skill.RunSuccess | src/novel2comic/skills/refine_shot_split/skill.py:62-68 | an accepted refinement conserves the baseline's normalised text, is numbered 0..N-1 and has a count in the effective window |
| Skill.RunFallback | src/novel2comic/skills/refine_shot_split/skill.py:55-72 | it falls back exactly when the model fails or the patch is not accepted, with that failure's message as the error |
| Skill.ShapeCheckedFirst | src/novel2comic/skills/refine_shot_split/skill.py:58 | a patch of the wrong shape is reported as such, whatever else is wrong with it |
| Skill.OpsCheckedBeforeApply | src/novel2comic/skills/refine_shot_split/skill.py:59-62 | bad op syntax is reported before the constraint check and before any op runs |
| Skill.PatchConstraintsIgnored | src/novel2comic/skills/refine_shot_split/skill.py:60-66 | replacing the patch's constraints block by any other well-typed one changes nothing in the outcome |
| Skill.EmptyPatchAccepted | src/novel2comic/skills/refine_shot_split/skill.py:56-68 | a well-formed patch with an empty "ops" list is accepted and gives back the baseline unchanged, when the baseline is numbered in order and has no empty tag map |
| Chapters.BlankIsNoAd | scripts/split_novel_to_chapters.py:46-49 | a blank line is never an advertisement |
| Chapters.UrlLineIsAd | scripts/split_novel_to_chapters.py:51-53 | a line holding "http://" or "https://" in any ASCII case is an advertisement |
| Chapters.ContainsStrip | scripts/split_novel_to_chapters.py:47 | a pattern without whitespace occurs in the stripped line exactly when it occurs in the line |
| Chapters.AdLineIff | scripts/split_novel_to_chapters.py:46-61 | a line is an advertisement exactly when, as it stands, it holds a URL scheme or an e-mail marker (any ASCII case), "更多电子书", "电子书" with "访问", or "下载" with "访问" or "分享" |
| Chapters.CleanLine | scripts/split_novel_to_chapters.py:64-66 | the cleaned line is a prefix of the unescaped line and does not end in whitespace |
| Chapters.NormalizeBlankLines | scripts/split_novel_to_chapters.py:69-88 | the counting loop and the two popping loops compute `NormalizeBlanks` |
| Chapters.NormalizeBlanksShape | scripts/split_novel_to_chapters.py:69-88 | no two consecutive blank lines; no blank line first or last; every blank line is "" |
| Chapters.NormalizeBlanksNonBlank | scripts/split_novel_to_chapters.py:80-81 | exactly the non-blank input lines are kept, in order |
| Chapters.NormalizeBlanksFrom | scripts/split_novel_to_chapters.py:73-81 | every output line is an input line or "" |
| Chapters.NormalizeBlanksIdempotent | scripts/split_novel_to_chapters.py:69-88 | normalising twice is normalising once |
| Chapters.CnNumToInt | scripts/split_novel_to_chapters.py:91-144 | the loop over total, section and pending digit computes `CnValue` |
| Chapters.CnValueStrips | scripts/split_novel_to_chapters.py:97-99 | surrounding whitespace is ignored, and a blank string is 0 |
| Chapters.AsciiNumeral | scripts/split_novel_to_chapters.py:102-103 | ASCII digits are read as a decimal number |
| Chapters.TeenNumeralValue | scripts/split_novel_to_chapters.py:134-136 | a leading 十 counts as 一十: "十d" is 10 + d |
| Chapters.FullNumeralValue | scripts/split_novel_to_chapters.py:133-144 | "a千b百c十d" with non-zero a, b, c has the value 1000a + 100b + 10c + d |
| Chapters.TwelveExample | scripts/split_novel_to_chapters.py:134-136 | "十二" is 12 |
| Chapters.ThousandExample | scripts/split_novel_to_chapters.py:9 | "一千零九十七" is 1097 |
| Chapters.WanExample | scripts/split_novel_to_chapters.py:121-131 | "两万三千" is 23000 |
| Chapters.AsciiExample | scripts/split_novel_to_chapters.py:102-103 | "12" is 12 |
| Chapters.DigitsWithoutUnits | scripts/split_novel_to_chapters.py:116-119 | digits without units are not positional: "一〇九七" is 7 |
| Chapters.MatchWellFormed | scripts/split_novel_to_chapters.py:31-34 | a match yields a non-empty number of one class, a kind among 章回节 and a stripped one-line name |
| Chapters.ParseTitle | scripts/split_novel_to_chapters.py:147-159 | the display title built from match groups is matched back to the same groups |
| Chapters.TitleRedetects | scripts/split_novel_to_chapters.py:147-159 | a detected heading's own title is detected as the same heading |
| Chapters.IndentedHeading | scripts/split_novel_to_chapters.py:31-34 | whitespace in front of a line does not change what heading it is |
| Chapters.FirstChapterExample | scripts/split_novel_to_chapters.py:147-159 | "第一章 初入" is heading 1 titled "第一章 初入" |
| Chapters.SecondChapterExample | scripts/split_novel_to_chapters.py:147-159 | "第二章 李家" is heading 2 titled "第二章 李家" |
| Chapters.AsciiChapterExample | scripts/split_novel_to_chapters.py:29-34 | "第12章" is heading 12 titled "第12章" |
| Chapters.ProseIsNoHeading | scripts/split_novel_to_chapters.py:147-150 | the indented paragraph "　　正文第一段。" is no heading |
| Splitting.PartitionIsReference | scripts/split_novel_to_chapters.py:184-204 | the loop and its flushes compute the reference partition: the lines before the first heading, then one segment per heading with the lines up to the next heading, omitted when empty |
| Splitting.PartitionConserves | scripts/split_novel_to_chapters.py:184-204 | front matter and segments together hold every non-heading line, in order |
| Splitting.PartitionShape | scripts/split_novel_to_chapters.py:184-204 | the front matter holds no heading; every segment has lines, none a heading, under a heading of the input; no more segments than headings |
| Splitting.SegmentsHeadings | scripts/split_novel_to_chapters.py:194-200 | from a heading on, there are no more segments than headings, and each segment carries a heading of the input |
| Splitting.FirstHeading | scripts/split_novel_to_chapters.py:194-204 | the position of the first heading: every line before it is not a heading |
| Splitting.NonHeadingsFrom | scripts/split_novel_to_chapters.py:194-202 | every kept line is an input line that is not a heading |
| Splitting.TwoSegments | scripts/split_novel_to_chapters.py:184-204 | two headings, each followed by non-heading lines, give two segments carrying their numbers and no front matter |
| Novel.FlushCur | scripts/split_novel_to_chapters.py:184-192 | `flush_cur` on the loop variables computes `Flush` |
| Novel.CleanAll | scripts/split_novel_to_chapters.py:168-173 | the cleaning loop computes `CleanLines`: every line cleaned, flagged lines left out |
| Novel.CleanLinesShape | scripts/split_novel_to_chapters.py:168-173 | every kept line is cleaned and not flagged |
| Novel.CleanedInput | scripts/split_novel_to_chapters.py:168-175 | after cleaning and blank-line normalisation, every line is cleaned and not an advertisement; there is no blank run and no blank line at either end |
| Novel.PartitionLines | scripts/split_novel_to_chapters.py:177-204 | the partition loop and its last flush compute `Partition` |
| Novel.SplitNovelToChapters | scripts/split_novel_to_chapters.py:162-207 | computes `SplitNovel` |
| Novel.SplitNovelFront | scripts/split_novel_to_chapters.py:162-207 | the front matter has no blank run and no blank line at either end; every line is cleaned, not an advertisement and not a heading |
| Novel.SplitNovelSegments | scripts/split_novel_to_chapters.py:184-204 | every segment has lines, each cleaned, not an advertisement and not a heading |
| Novel.TwoChaptersExample | tests/test_scripts.py:13-33 | the two-chapter novel of the script test gives segments 1 and 2 and no front matter |
| Indent.NormalizeLines | scripts/normalize_chapter_indent.py:30-58 | the loop computes `NormalizeAll`: one output line per input line, in order |
| Indent.BlankLine | scripts/normalize_chapter_indent.py:35-38 | a line becomes "" exactly when it is blank |
| Indent.TabsIgnored | scripts/normalize_chapter_indent.py:40-41 | leading tabs do not change what a line becomes |
| Indent.TitleLine | scripts/normalize_chapter_indent.py:43-46 | a title line is output stripped of all surrounding whitespace |
| Indent.ProseLine | scripts/normalize_chapter_indent.py:48-56 | any other non-blank line becomes two ideographic spaces plus the line with its newline chomped and all leading whitespace removed |
| Indent.StripKeepsTitle | scripts/normalize_chapter_indent.py:23-27 | a title stays a title once stripped |
| Indent.IndentKeepsProse | scripts/normalize_chapter_indent.py:23-27 | indenting a line that is not a title keeps it not a title |
| Indent.NormalizeLineIdempotent | scripts/normalize_chapter_indent.py:30-58 | normalising a line twice is normalising it once, under either title rule |
| Indent.NormalizeAllIdempotent | scripts/normalize_chapter_indent.py:30-58 | applying `normalize_lines` twice gives what applying it once gives |
| Indent.TitleOfParts | scripts/normalize_chapter_indent.py:23 | "第", a number group and a kind make a title exactly when the kind test (with its word boundary, as written) holds |
| Indent.GluedTitle | scripts/normalize_chapter_indent.py:23 | a title glued to its name is a title under the intended rule and not under the rule as written |
| Indent.BoundaryQuirk | scripts/normalize_chapter_indent.py:23 | as written, a title glued to its name is indented like prose |
| Indent.GluedTitleKept | scripts/normalize_chapter_indent.py:10 | without the word boundary, a glued title is left unindented |
| Indent.GluedExample | scripts/normalize_chapter_indent.py:10 | "第一章初入" is such a glued title |
| Indent.SpacedTitle | scripts/normalize_chapter_indent.py:40-46 | a tab, a title and a trailing space are written out as the bare title, under both rules |
| Indent.SpacedIsTitle | scripts/normalize_chapter_indent.py:23 | "第", a number, a kind and one whitespace character form a title under both rules |
| Indent.TwelfthChapterLine | scripts/normalize_chapter_indent.py:10 | the line "\t第十二章 " is written out as "第十二章" |
| Manifest.Manifest.constructor | src/novel2comic/core/manifest.py:80-118 | a new manifest is at stage "empty", with no marks, last error "", num_shots 0, and the fixed metadata, providers and artifacts |
| Manifest.Manifest.Stage | src/novel2comic/core/manifest.py:55-57 | the recorded stage, or "empty" when none is recorded |
| Manifest.Manifest.SetStage | src/novel2comic/core/manifest.py:59-63 | a name outside STAGES fails and changes nothing; any other is recorded, and nothing else changes |
| Manifest.Manifest.MarkDone | src/novel2comic/core/manifest.py:65-70 | the key is added to the done list unless it is already there; if no mark was repeated, none is; nothing else changes |
| Manifest.Manifest.MarkFailed | src/novel2comic/core/manifest.py:72-77 | the key is added to the failed list unless it is already there; the error is always recorded; if no mark was repeated, none is; nothing else changes |
| Manifest.AddOnce | src/novel2comic/core/manifest.py:66-70 | the list after marking holds exactly the old keys and the new one |
| Manifest.AddOnceKnown | src/novel2comic/core/manifest.py:67-68 | marking a key already there changes nothing |
| Manifest.AddOnceNew | src/novel2comic/core/manifest.py:70 | a new key goes at the end |
| Manifest.AddOnceIdempotent | src/novel2comic/core/manifest.py:65-70 | marking twice is marking once |
| Manifest.AddOncePrefix | src/novel2comic/core/manifest.py:65-77 | marking never removes or reorders a mark |
| Manifest.AddOnceNoDup | src/novel2comic/core/manifest.py:65-77 | marking keeps a list free of repetitions |
| Manifest.MarkAllNoDup | src/novel2comic/core/manifest.py:65-70 | a list marked from empty has no repetitions and holds exactly the keys marked |
| Manifest.StagesShape | src/novel2comic/core/manifest.py:29-39 | the nine stage names are distinct, and the first is "empty" |

The functions that specify the code carry no contract of their own. The
lemmas and methods above state their properties. They model these lines:

- `Chapters.LooksLikeAdLine`: scripts/split_novel_to_chapters.py:46-61
- `Chapters.DetectChapter`: scripts/split_novel_to_chapters.py:147-159
- `Splitting.Partition`: scripts/split_novel_to_chapters.py:177-204
- `Indent.NormalizeLine`: scripts/normalize_chapter_indent.py:32-56
- `Applier.MergeOp`: src/novel2comic/skills/refine_shot_split/applier.py:85-109
- `Applier.MoveTailOp`: src/novel2comic/skills/refine_shot_split/applier.py:112-142
- `Applier.SplitOp`: src/novel2comic/skills/refine_shot_split/applier.py:145-166
- `Applier.TagOp`: src/novel2comic/skills/refine_shot_split/applier.py:169-177
- `Applier.ApplyPatchSpec`: src/novel2comic/skills/refine_shot_split/applier.py:47-75
- `Skill.Accept`: src/novel2comic/skills/refine_shot_split/skill.py:56-68

## Left out

- I/O is not modelled: `write_outputs` and `main` of split_novel_to_chapters.py, `main` of normalize_chapter_indent.py, file reading, `load_manifest` and `save_manifest`.
- The language-model client and the prompt text are not modelled. The model sees an oracle over the request: the chapter id, the baseline shots and the local constraints.
- `html.unescape` is a parameter of the chapter splitter. Only the `rstrip` after it is modelled.
- JSON numbers are integers only. Floats (for example `int(2.7)` for "sentences") are not modelled.
- Tag dictionaries are immutable maps. Python's sharing of one dict between the base shots, the working copies and the two halves of a split is not modelled.
- The messages of exceptions raised by Python itself (KeyError, TypeError, ValueError of `int()`) are descriptive strings, not Python's exact `str(e)`.
- The manifest's `meta`, `durations`, `providers` and `artifacts` are typed maps. Only the four status keys the methods touch are modelled.
- Chapters.CnValue: Python's `str.isdigit` also accepts non-ASCII digits, such as full-width or superscript ones. The model reads only ASCII digits as a decimal number.
- Chars.AsciiLower: Python's `lower()` also lowers non-ASCII letters. The only non-ASCII characters that lower to ASCII letters are U+212A (to "k") and U+0130 (to "i" plus a combining dot). Neither can complete one of the ASCII patterns, so the advertisement test is unaffected.
- Applier.IntOfString: `int()` also accepts the decimal digits of other scripts (Unicode category Nd, such as full-width "３"). The model reads ASCII digits only: a table of all 68 digit ranges made every proof that unfolds the conversion too costly. The 4300-digit limit of Python 3.11 and later is not modelled.
- Applier.UpdatePair: `dict.update` also takes a pair whose key is a number, a bool or null, and a two-key object, whose keys become the pair. The model refuses these: tag keys are strings, and a JSON object is an unordered map, so its key order is not available.
- Applier.IntField: an index field (start_idx, end_idx, from_idx, to_idx, idx) that is not an int or bool is refused when the op is read, as a TypeError. Python reads any value there and fails later: no shot idx equals it ("idx not found"), or `from_idx + 1` raises a TypeError. Both fail, with different messages.
- Indent.IsWordChar: it covers ASCII letters, digits and "_", the CJK ideographs, kana, hangul and full-width letters and digits. It does not cover every Unicode letter or digit that Python's `\w` matches.

## Findings

| source | as written | input that shows it | evidently intended | confidence | as-written member | corrected member |
|---|---|---|---|---|---|---|
| scripts/normalize_chapter_indent.py:23 | `CH_TITLE_RE` requires a word boundary `\b` after 章/回/节. A title glued to its name has a word character there, so it is not a title and gets indented like prose. | "第一章初入" becomes "　　第一章初入" | The script's own documentation (line 10) names "第一章初入" as a title that takes no indent, and the chapter splitter's `_CHAPTER_RE` has no such boundary | not executed | `Indent.BoundaryQuirk` (with `Indent.GluedExample`) | `Indent.GluedTitleKept` (rule `Intended`), with `Indent.NormalizeAllIdempotent` |
