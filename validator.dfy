/**
 * The patch validator (src/novel2comic/skills/refine_shot_split/validator.py):
 * structural checks on the collaborator's patch before it is applied, and the
 * text-conservation and shot-count checks after.  Every check either passes or
 * fails with the message the source raises.
 */
module Validator {
  import opened Results
  import opened Chars
  import opened JsonValue
  import opened Shots

  const SchemaVersion: string := "shotsplit_patch.v0.1"
  const OpNames: set<string> := {"merge", "split", "move_tail", "tag"}

  // ---------------------------------------------------------------- normalisation

  /** `normalize_text`: the text with every whitespace character (full-width space and newline included) removed. */
  function NormalizeText(s: string): string {
    if s == [] then []
    else (if IsSpace(s[0]) then [] else [s[0]]) + NormalizeText(s[1..])
  }

  /** The normalised text holds no whitespace and is no longer than the text. */
  lemma {:induction false} NormalizeNoSpace(s: string)
    ensures |NormalizeText(s)| <= |s|
    ensures forall i :: 0 <= i < |NormalizeText(s)| ==> !IsSpace(NormalizeText(s)[i])
  {
    if s != [] {
      NormalizeNoSpace(s[1..]);
      var head: string := if IsSpace(s[0]) then [] else [s[0]];
      var r := NormalizeText(s);
      assert r == head + NormalizeText(s[1..]);
      forall i | 0 <= i < |r| ensures !IsSpace(r[i]) {
        if i >= |head| {
          assert r[i] == NormalizeText(s[1..])[i - |head|];
        }
      }
    }
  }

  /** A text without whitespace is its own normalisation. */
  lemma {:induction false} NormalizeSpaceFree(s: string)
    requires forall i :: 0 <= i < |s| ==> !IsSpace(s[i])
    ensures NormalizeText(s) == s
  {
    if s != [] {
      NormalizeSpaceFree(s[1..]);
      assert [s[0]] + s[1..] == s;
    }
  }

  /** The normalised text is empty exactly when the text is blank. */
  lemma {:induction false} NormalizeEmptyIffBlank(s: string)
    ensures NormalizeText(s) == [] <==> IsBlank(s)
  {
    if s != [] {
      NormalizeEmptyIffBlank(s[1..]);
      if IsSpace(s[0]) {
        assert IsBlank(s) <==> IsBlank(s[1..]);
      } else {
        assert NormalizeText(s)[0] == s[0];
      }
    }
  }

  /** Normalisation is idempotent. */
  lemma NormalizeIdempotent(s: string)
    ensures NormalizeText(NormalizeText(s)) == NormalizeText(s)
  {
    NormalizeNoSpace(s);
    NormalizeSpaceFree(NormalizeText(s));
  }

  /** Normalisation distributes over concatenation. */
  lemma {:induction false} NormalizeConcat(a: string, b: string)
    ensures NormalizeText(a + b) == NormalizeText(a) + NormalizeText(b)
  {
    if a == [] {
      assert a + b == b;
    } else {
      assert (a + b)[0] == a[0] && (a + b)[1..] == a[1..] + b;
      NormalizeConcat(a[1..], b);
    }
  }

  /** Removing leading or trailing whitespace does not change the normalised text. */
  lemma NormalizeStrip(s: string)
    ensures NormalizeText(LStrip(s)) == NormalizeText(s)
    ensures NormalizeText(RStrip(s)) == NormalizeText(s)
    ensures NormalizeText(Strip(s)) == NormalizeText(s)
  {
    NormalizeLStrip(s);
    NormalizeRStrip(s);
    NormalizeRStrip(LStrip(s));
  }

  lemma {:induction false} NormalizeLStrip(s: string)
    ensures NormalizeText(LStrip(s)) == NormalizeText(s)
  {
    if s != [] && IsSpace(s[0]) {
      NormalizeLStrip(s[1..]);
      assert NormalizeText(s) == NormalizeText(s[1..]);
    }
  }

  lemma NormalizeRStrip(s: string)
    ensures NormalizeText(RStrip(s)) == NormalizeText(s)
  {
    var r := RStrip(s);
    var q := s[|r|..];
    RStripDropsSpaces(s);
    assert s == r + q;
    assert IsBlank(q);
    NormalizeEmptyIffBlank(q);
    NormalizeConcat(r, q);
  }

  lemma NormalizeLStripChars(s: string, cs: set<char>)
    requires forall c :: c in cs ==> IsSpace(c)
    ensures NormalizeText(LStripChars(s, cs)) == NormalizeText(s)
  {
    var l := LStripChars(s, cs);
    var p := s[..|s| - |l|];
    LStripCharsDrops(s, cs);
    assert s == p + l;
    forall i | 0 <= i < |p| ensures IsSpace(p[i]) {
      assert p[i] == s[i] && s[i] in cs;
    }
    NormalizeEmptyIffBlank(p);
    NormalizeConcat(p, l);
  }

  lemma NormalizeRStripChars(s: string, cs: set<char>)
    requires forall c :: c in cs ==> IsSpace(c)
    ensures NormalizeText(RStripChars(s, cs)) == NormalizeText(s)
  {
    var r := RStripChars(s, cs);
    var q := s[|r|..];
    RStripCharsDrops(s, cs);
    assert s == r + q;
    forall i | 0 <= i < |q| ensures IsSpace(q[i]) {
      assert q[i] == s[|r| + i] && s[|r| + i] in cs;
    }
    NormalizeEmptyIffBlank(q);
    NormalizeConcat(r, q);
  }

  /** Stripping characters that are all whitespace does not change the normalised text. */
  lemma NormalizeStripChars(s: string, cs: set<char>)
    requires forall c :: c in cs ==> IsSpace(c)
    ensures NormalizeText(StripChars(s, cs)) == NormalizeText(s)
  {
    NormalizeLStripChars(s, cs);
    NormalizeRStripChars(LStripChars(s, cs), cs);
  }

  /** Joining with a blank separator has the normalised text of plain concatenation. */
  lemma {:induction false} NormalizeJoin(sep: string, ss: seq<string>)
    requires IsBlank(sep)
    ensures NormalizeText(Join(sep, ss)) == NormalizeText(Concat(ss))
  {
    NormalizeEmptyIffBlank(sep);
    if |ss| == 1 {
      assert Concat(ss) == ss[0] + Concat(ss[1..]);
      assert Concat(ss[1..]) == [];
      assert ss[0] + [] == ss[0];
    } else if |ss| > 1 {
      NormalizeJoin(sep, ss[1..]);
      NormalizeConcat(ss[0] + sep, Join(sep, ss[1..]));
      NormalizeConcat(ss[0], sep);
      NormalizeConcat(ss[0], Concat(ss[1..]));
    }
  }

  /** `concat_text`: the shots' texts joined with nothing in between. */
  function ConcatText(shots: seq<Shot>): string {
    if shots == [] then [] else shots[0].text + ConcatText(shots[1..])
  }

  lemma {:induction false} ConcatTextAppend(a: seq<Shot>, b: seq<Shot>)
    ensures ConcatText(a + b) == ConcatText(a) + ConcatText(b)
  {
    if a == [] {
      assert a + b == b;
    } else {
      assert (a + b)[0] == a[0] && (a + b)[1..] == a[1..] + b;
      ConcatTextAppend(a[1..], b);
    }
  }

  // ---------------------------------------------------------------- pre-application checks

  /** `validate_patch_shape`: an object holding (at least) the four keys, the supported version and a list of ops. */
  function ValidatePatchShape(patch: Json): (o: Outcome)
    ensures o.Pass? <==>
      && patch.JObj?
      && "schema_version" in patch.fields && "chapter_id" in patch.fields
      && "constraints" in patch.fields && "ops" in patch.fields
      && patch.fields["schema_version"] == JStr(SchemaVersion)
      && patch.fields["ops"].JArr?
  {
    if !patch.JObj? then Fail("patch must be a JSON object")
    else
      var f := patch.fields;
      if "schema_version" !in f then Fail("missing key: schema_version")
      else if "chapter_id" !in f then Fail("missing key: chapter_id")
      else if "constraints" !in f then Fail("missing key: constraints")
      else if "ops" !in f then Fail("missing key: ops")
      else if f["schema_version"] != JStr(SchemaVersion) then Fail("unsupported schema_version")
      else if !f["ops"].JArr? then Fail("ops must be a list")
      else Pass
  }

  /** An op object whose "op" entry names one of the four supported operations. */
  predicate WellFormedOp(op: Json) {
    op.JObj? && "op" in op.fields && op.fields["op"].JStr? && op.fields["op"].s in OpNames
  }

  /** `validate_ops_syntax`: every op is an object with a supported "op" name; the first offender is reported. */
  function ValidateOpsSyntax(ops: seq<Json>): (o: Outcome)
    ensures o.Pass? <==> forall i :: 0 <= i < |ops| ==> WellFormedOp(ops[i])
  {
    if ops == [] then Pass
    else if !ops[0].JObj? then Fail("each op must be an object")
    else if !WellFormedOp(ops[0]) then Fail("invalid op type")
    else
      var rest := ValidateOpsSyntax(ops[1..]);
      assert forall i :: 1 <= i < |ops| ==> ops[i] == ops[1..][i - 1];
      rest
  }

  /**
   * `validate_constraints`: the patch's own constraints block carries the three
   * fields with the right primitive types (a bool passes as an int).  Its values
   * are never compared with the caller's constraints `c`.
   */
  function ValidateConstraints(block: Json, c: Constraints): (o: Outcome)
    ensures o.Pass? <==>
      && block.JObj?
      && "min_shots" in block.fields && "max_shots" in block.fields
      && "forbid_cross_scene_break" in block.fields
      && IsPyInt(block.fields["min_shots"]) && IsPyInt(block.fields["max_shots"])
      && block.fields["forbid_cross_scene_break"].JBool?
  {
    if !block.JObj? then Fail("constraints must be an object")
    else
      var f := block.fields;
      if "min_shots" !in f then Fail("constraints missing: min_shots")
      else if "max_shots" !in f then Fail("constraints missing: max_shots")
      else if "forbid_cross_scene_break" !in f then Fail("constraints missing: forbid_cross_scene_break")
      else if !IsPyInt(f["min_shots"]) then Fail("constraints.min_shots must be int")
      else if !IsPyInt(f["max_shots"]) then Fail("constraints.max_shots must be int")
      else if !f["forbid_cross_scene_break"].JBool? then Fail("constraints.forbid_cross_scene_break must be bool")
      else Pass
  }

  // ---------------------------------------------------------------- post-application checks

  /** `validate_text_conservation`: passes exactly when both sequences have the same normalised text. */
  function ValidateTextConservation(base: seq<Shot>, refined: seq<Shot>): (o: Outcome)
    ensures o.Pass? <==> NormalizeText(ConcatText(base)) == NormalizeText(ConcatText(refined))
  {
    if NormalizeText(ConcatText(base)) != NormalizeText(ConcatText(refined))
    then Fail("text conservation failed: refined text differs from baseline")
    else Pass
  }

  /** The window `validate_count_range` enforces: effective bounds replace the configured ones when supplied. */
  function CountWindow(c: Constraints, effectiveMin: Option<int>, effectiveMax: Option<int>): (int, int) {
    (if effectiveMin.Some? then effectiveMin.value else c.minShots,
     if effectiveMax.Some? then effectiveMax.value else c.maxShots)
  }

  /** `validate_count_range`: fails exactly when the shot count lies outside the window. */
  function ValidateCountRange(refined: seq<Shot>, c: Constraints, effectiveMin: Option<int>, effectiveMax: Option<int>): (o: Outcome)
    ensures var (lo, hi) := CountWindow(c, effectiveMin, effectiveMax);
            o.Pass? <==> lo <= |refined| <= hi
    ensures effectiveMin.None? && effectiveMax.None? ==> (o.Pass? <==> c.minShots <= |refined| <= c.maxShots)
  {
    var (lo, hi) := CountWindow(c, effectiveMin, effectiveMax);
    if |refined| < lo || |refined| > hi then Fail("shot count out of range") else Pass
  }

  // ---------------------------------------------------------------- the source's test cases

  /** "原文" against "改写了" fails the conservation check. */
  lemma RewrittenTextFailsConservation()
    ensures ValidateTextConservation([Shot(0, Mixed, "原文", None)], [Shot(0, Mixed, "改写了", None)]).Fail?
  {
    var base := [Shot(0, Mixed, "原文", None)];
    var refined := [Shot(0, Mixed, "改写了", None)];
    assert ConcatText(base) == "原文" by { assert "原文" + [] == "原文"; }
    assert ConcatText(refined) == "改写了" by { assert "改写了" + [] == "改写了"; }
    var a, b := "原文", "改写了";
    assert forall i :: 0 <= i < |a| ==> !IsSpace(a[i]);
    assert forall i :: 0 <= i < |b| ==> !IsSpace(b[i]);
    assert |NormalizeText(a)| == 2 && |NormalizeText(b)| == 3;
  }

  /** Twenty shots pass against the relaxed window [20, 120], even with min_shots = 60 configured. */
  lemma TwentyShotsPassRelaxedWindow(shots: seq<Shot>)
    requires |shots| == 20
    ensures ValidateCountRange(shots, Constraints(60, 120, true), Some(20), Some(120)).Pass?
    ensures ValidateCountRange(shots, Constraints(60, 120, true), None, None).Fail?
  {
  }
}
