/**
 * The patch interpreter of the refinement step
 * (src/novel2comic/skills/refine_shot_split/applier.py): an edit script of
 * merge / split / move_tail / tag operations run over a shot sequence.
 * Operations locate shots by `idx` (first match wins); any illegal operation
 * fails the whole patch; at the end every shot is renumbered by position.
 */
module Applier {
  import opened Results
  import opened Chars
  import opened JsonValue
  import opened Shots
  import opened Validator

  // ---------------------------------------------------------------- split_sentences

  /** The characters after which `split_sentences` cuts: 。！？； and the closing quote ”. */
  const TailMarks: set<char> := {'。', '！', '？', '；', '”'}

  /** The loop of `split_sentences` over a prefix: the non-blank parts cut so far and the open buffer. */
  function PartsState(t: string): (seq<string>, string) {
    if t == [] then ([], [])
    else
      var (parts, buf) := PartsState(t[..|t| - 1]);
      var b := buf + [t[|t| - 1]];
      if t[|t| - 1] in TailMarks then (if Strip(b) != [] then parts + [b] else parts, [])
      else (parts, b)
  }

  /** `split_sentences`: cut after every mark, drop blank pieces, keep a non-blank rest; pieces are not stripped. */
  function SentenceParts(text: string): seq<string> {
    var (parts, buf) := PartsState(text);
    if Strip(buf) != [] then parts + [buf] else parts
  }

  method SplitSentences(text: string) returns (parts: seq<string>)
    ensures parts == SentenceParts(text)
  {
    parts := [];
    var buf: string := "";
    for i := 0 to |text|
      invariant (parts, buf) == PartsState(text[..i])
    {
      assert text[..i + 1][..i] == text[..i];
      buf := buf + [text[i]];
      if text[i] in TailMarks {
        if Strip(buf) != [] {
          parts := parts + [buf];
        }
        buf := "";
      }
    }
    assert text[..|text|] == text;
    if Strip(buf) != [] {
      parts := parts + [buf];
    }
  }

  /** The non-blank strings of `xs`, in order. */
  function DropBlank(xs: seq<string>): seq<string> {
    if xs == [] then []
    else DropBlank(xs[..|xs| - 1]) + (if Strip(xs[|xs| - 1]) != [] then [xs[|xs| - 1]] else [])
  }

  lemma DropBlankSnoc(xs: seq<string>, x: string)
    ensures DropBlank(xs + [x]) == DropBlank(xs) + (if Strip(x) != [] then [x] else [])
  {
    assert (xs + [x])[..|xs|] == xs;
  }

  /** The loop keeps exactly the non-blank pieces of the cut after every mark. */
  lemma {:induction false} PartsStateIsCut(t: string)
    ensures PartsState(t) == (DropBlank(CutAfter(t, TailMarks).0), CutAfter(t, TailMarks).1)
  {
    if t != [] {
      var t0 := t[..|t| - 1];
      PartsStateIsCut(t0);
      var (pieces, buf) := CutAfter(t0, TailMarks);
      var b := buf + [t[|t| - 1]];
      if t[|t| - 1] in TailMarks {
        DropBlankSnoc(pieces, b);
        AppendEmpty(DropBlank(pieces));
      }
    }
  }

  /**
   * The parts are the non-blank pieces of `text` cut after every mark, the
   * unterminated rest last; those pieces concatenate back to `text` exactly.
   */
  lemma SentencePartsAreCut(text: string)
    ensures var (pieces, rest) := CutAfter(text, TailMarks);
      && SentenceParts(text) == DropBlank(pieces + [rest])
      && Concat(pieces) + rest == text
  {
    PartsStateIsCut(text);
    CutAfterParts(text, TailMarks);
    var (pieces, rest) := CutAfter(text, TailMarks);
    DropBlankSnoc(pieces, rest);
    AppendEmpty(DropBlank(pieces));
  }

  /** Every part is non-blank. */
  lemma {:induction false} DropBlankNonBlank(xs: seq<string>)
    ensures forall i :: 0 <= i < |DropBlank(xs)| ==> Strip(DropBlank(xs)[i]) != []
  {
    if xs != [] {
      var init := xs[..|xs| - 1];
      DropBlankNonBlank(init);
      var d := DropBlank(init);
      var x := xs[|xs| - 1];
      if Strip(x) != [] {
        forall i | 0 <= i < |d| + 1 ensures Strip((d + [x])[i]) != [] {
          if i < |d| {
            assert (d + [x])[i] == d[i];
          }
        }
      }
    }
  }

  /** Dropping blank strings does not change the normalised concatenation. */
  lemma {:induction false} DropBlankNormalize(xs: seq<string>)
    ensures NormalizeText(Concat(DropBlank(xs))) == NormalizeText(Concat(xs))
  {
    if xs != [] {
      var init := xs[..|xs| - 1];
      var x := xs[|xs| - 1];
      DropBlankNormalize(init);
      SnocInit(xs);
      ConcatSnoc(init, x);
      NormalizeConcat(Concat(init), x);
      if Strip(x) != [] {
        ConcatSnoc(DropBlank(init), x);
        NormalizeConcat(Concat(DropBlank(init)), x);
      } else {
        AppendEmpty(DropBlank(init));
        StripEmptyIffBlank(x);
        NormalizeEmptyIffBlank(x);
        AppendEmpty(NormalizeText(Concat(init)));
      }
    }
  }

  /**
   * The parts of `split_sentences` are non-blank, and together they hold every
   * non-space character of the text in order: what is dropped is whitespace only.
   */
  lemma SentencePartsProps(text: string)
    ensures forall i :: 0 <= i < |SentenceParts(text)| ==> Strip(SentenceParts(text)[i]) != []
    ensures NormalizeText(Concat(SentenceParts(text))) == NormalizeText(text)
  {
    SentencePartsAreCut(text);
    var (pieces, rest) := CutAfter(text, TailMarks);
    DropBlankNonBlank(pieces + [rest]);
    DropBlankNormalize(pieces + [rest]);
    ConcatSnoc(pieces, rest);
  }

  // ---------------------------------------------------------------- operations

  /** A decoded patch operation; an unsupported "op" value is kept as `Unknown`. */
  datatype Op =
    | Merge(startIdx: int, endIdx: int)
    | MoveTail(fromIdx: int, toIdx: int, sentences: int)
    | Split(idx: int, at: string)
    | Tag(idx: int, tags: Json)
    | Unknown(name: Json)

  /** `op[key]` where the value must be a Python int (a bool counts). */
  function IntField(f: map<string, Json>, key: string): (r: Result<int>)
    ensures r.Ok? <==> key in f && IsPyInt(f[key])
    ensures r.Ok? ==> r.value == AsPyInt(f[key])
  {
    if key !in f then Err("KeyError: " + key)
    else if !IsPyInt(f[key]) then Err("TypeError: " + key + " must be an int")
    else Ok(AsPyInt(f[key]))
  }

  /**
   * `int(s)` on a string: surrounding whitespace, an optional sign, then ASCII
   * digits, single underscores allowed between two digits.
   */
  function IntOfString(s: string): (r: Result<int>)
    ensures var t := Strip(s);
      r.Ok? <==> DigitRun(t) || (t != [] && t[0] in {'+', '-'} && DigitRun(t[1..]))
    ensures DigitRun(Strip(s)) ==> r == Ok(RunValue(Strip(s)))
  {
    var t := Strip(s);
    if DigitRun(t) then Ok(RunValue(t))
    else if t != [] && t[0] in {'+', '-'} && DigitRun(t[1..]) then
      var v: int := RunValue(t[1..]);
      Ok(if t[0] == '-' then -v else v)
    else Err("ValueError: invalid literal for int() with base 10")
  }

  /** Surrounding whitespace is ignored, and a sign gives the value or its negation. */
  lemma IntOfSigned(w: string, ds: string, w': string)
    requires DigitRun(ds)
    requires forall i :: 0 <= i < |w| ==> IsSpace(w[i])
    requires forall i :: 0 <= i < |w'| ==> IsSpace(w'[i])
    ensures IntOfString(w + ds + w') == Ok(RunValue(ds))
    ensures IntOfString(w + ("+" + ds) + w') == Ok(RunValue(ds))
    ensures IntOfString(w + ("-" + ds) + w') == Ok(-(RunValue(ds) as int))
  {
    IntOfPadded(w, ds, w');
    StripTrimmed(ds);
    IntOfPadded(w, "+" + ds, w');
    IntOfPadded(w, "-" + ds, w');
    IntOfSignedRun(ds);
  }

  /** Whitespace around a text that starts and ends with other characters does not change what `int()` makes of it. */
  lemma IntOfPadded(w: string, t: string, w': string)
    requires t != [] && !IsSpace(t[0]) && !IsSpace(t[|t| - 1])
    requires forall i :: 0 <= i < |w| ==> IsSpace(w[i])
    requires forall i :: 0 <= i < |w'| ==> IsSpace(w'[i])
    ensures IntOfString(w + t + w') == IntOfString(t)
  {
    SurroundedStrip(w, t, w');
    StripTrimmed(t);
  }

  /** A "+" in front of a digit run keeps its value, a "-" negates it. */
  lemma IntOfSignedRun(ds: string)
    requires DigitRun(ds)
    ensures IntOfString("+" + ds) == Ok(RunValue(ds))
    ensures IntOfString("-" + ds) == Ok(-(RunValue(ds) as int))
  {
    StripTrimmed("+" + ds);
    StripTrimmed("-" + ds);
    assert ("+" + ds)[1..] == ds && ("-" + ds)[1..] == ds;
  }

  /** `strip` removes exactly the whitespace around a text that starts and ends with other characters. */
  lemma SurroundedStrip(w: string, t: string, w': string)
    requires t != [] && !IsSpace(t[0]) && !IsSpace(t[|t| - 1])
    requires forall i :: 0 <= i < |w| ==> IsSpace(w[i])
    requires forall i :: 0 <= i < |w'| ==> IsSpace(w'[i])
    ensures Strip(w + t + w') == t
  {
    LeadingSpacesDropped(w, t + w');
    assert w + t + w' == w + (t + w');
    TrailingSpacesDropped(t, w');
  }

  lemma {:induction false} LeadingSpacesDropped(w: string, t: string)
    requires t != [] && !IsSpace(t[0])
    requires forall i :: 0 <= i < |w| ==> IsSpace(w[i])
    ensures LStrip(w + t) == t
  {
    if w == [] {
      assert w + t == t;
    } else {
      assert (w + t)[1..] == w[1..] + t;
      LeadingSpacesDropped(w[1..], t);
    }
  }

  lemma {:induction false} TrailingSpacesDropped(t: string, w: string)
    requires t != [] && !IsSpace(t[|t| - 1])
    requires forall i :: 0 <= i < |w| ==> IsSpace(w[i])
    ensures RStrip(t + w) == t
  {
    if w == [] {
      assert t + w == t;
    } else {
      assert (t + w)[..|t + w| - 1] == t + w[..|w| - 1];
      TrailingSpacesDropped(t, w[..|w| - 1]);
    }
  }

  /** `int()` on ASCII digits is their decimal value. */
  lemma IntOfAscii(s: string)
    requires IsAsciiDigits(s)
    ensures IntOfString(s) == Ok(DecimalValue(s))
  {
    RunValueAscii(s);
    assert Strip(s) == s;
  }

  /** The digits "1_0" spell ten. */
  lemma OneUnderscoreZero()
    ensures DigitRun("1_0") && RunValue("1_0") == 10
  {
    assert "1_0"[..2] == "1_";
    assert "1_"[..1] == "1";
    assert "1"[..0] == [];
  }

  /** "1_0" is ten. */
  lemma IntOfUnderscore()
    ensures IntOfString("1_0") == Ok(10)
  {
    OneUnderscoreZero();
    IntOfSigned("", "1_0", "");
    assert "" + "1_0" + "" == "1_0";
  }

  /** " -1_0 " is minus ten. */
  lemma IntOfSignedUnderscore()
    ensures IntOfString(" -1_0 ") == Ok(-10)
  {
    OneUnderscoreZero();
    IntOfSigned(" ", "1_0", " ");
    assert " " + ("-" + "1_0") + " " == " -1_0 ";
  }

  /** A doubled, leading or trailing underscore is refused. */
  lemma IntOfBadUnderscores()
    ensures IntOfString("1__0").Err? && IntOfString("_1").Err? && IntOfString("1_").Err?
  {
    assert Strip("1__0") == "1__0" && Strip("_1") == "_1" && Strip("1_") == "1_";
    assert "1__0"[1] == '_' && "1__0"[2] == '_';
  }

  /** `int(op["sentences"])`. */
  function IntOf(j: Json): (r: Result<int>)
    ensures IsPyInt(j) ==> r == Ok(AsPyInt(j))
    ensures r.Ok? ==> IsPyInt(j) || j.JStr?
  {
    match j
    case JInt(n) => Ok(n)
    case JBool(b) => Ok(if b then 1 else 0)
    case JStr(s) => IntOfString(s)
    case _ => Err("TypeError: int() argument must be a string or a number")
  }

  /** One element of the sequence form of `dict.update`: a two-item list or a two-character string. */
  function UpdatePair(e: Json): (r: Result<(string, Json)>)
    ensures r.Ok? <==> (e.JArr? && |e.items| == 2 && e.items[0].JStr?) || (e.JStr? && |e.s| == 2)
  {
    match e
    case JArr(kv) =>
      if |kv| != 2 then Err("ValueError: update element of length other than 2")
      else if kv[0].JStr? then Ok((kv[0].s, kv[1]))
      else if kv[0].JArr? || kv[0].JObj? then Err("TypeError: unhashable type")
      else Err("non-string tag key")
    case JStr(p) =>
      if |p| == 2 then Ok(([p[0]], JStr([p[1]])))
      else Err("ValueError: update element of length other than 2")
    case JObj(_) => Err("object as a key/value pair")
    case _ => Err("TypeError: update element is not a sequence")
  }

  /** The entries `dict.update` takes from a sequence of pairs, in order: a later pair overwrites an earlier one. */
  function UpdatePairs(items: seq<Json>): (r: Result<map<string, Json>>)
    ensures r.Ok? <==> forall i :: 0 <= i < |items| ==> UpdatePair(items[i]).Ok?
  {
    if items == [] then Ok(map[])
    else
      var m :- UpdatePairs(items[..|items| - 1]);
      var p :- UpdatePair(items[|items| - 1]);
      Ok(m[p.0 := p.1])
  }

  /** `d.update(x)` for a JSON value `x`: the entries it writes, or the error it raises. */
  function UpdateEntries(x: Json): (r: Result<map<string, Json>>)
    ensures r.Ok? <==> x.JObj? || x == JStr([]) || (x.JArr? && UpdatePairs(x.items).Ok?)
    ensures x.JObj? ==> r == Ok(x.fields)
  {
    match x
    case JObj(f) => Ok(f)
    case JArr(items) => UpdatePairs(items)
    case JStr(p) =>
      if p == [] then Ok(map[])
      else Err("ValueError: update element of length 1")
    case _ => Err("TypeError: object is not iterable")
  }

  /** The value a pair list gives a key is that of its last pair with the key. */
  lemma {:induction false} UpdatePairsLast(items: seq<Json>, i: nat)
    requires UpdatePairs(items).Ok? && i < |items|
    requires forall j :: i < j < |items| ==> UpdatePair(items[j]).Ok? && UpdatePair(items[j]).value.0 != UpdatePair(items[i]).value.0
    ensures UpdatePair(items[i]).Ok?
    ensures var p := UpdatePair(items[i]).value; p.0 in UpdatePairs(items).value && UpdatePairs(items).value[p.0] == p.1
    decreases |items|
  {
    var init := items[..|items| - 1];
    if i < |items| - 1 {
      forall j | i < j < |init| ensures UpdatePair(init[j]).Ok? && UpdatePair(init[j]).value.0 != UpdatePair(init[i]).value.0 {
        assert init[j] == items[j];
      }
      assert init[i] == items[i];
      UpdatePairsLast(init, i);
    }
  }

  /** Every key a pair list writes is the key of one of its pairs. */
  lemma {:induction false} UpdatePairsKeys(items: seq<Json>, k: string)
    requires UpdatePairs(items).Ok? && k in UpdatePairs(items).value
    ensures exists i :: 0 <= i < |items| && UpdatePair(items[i]).Ok? && UpdatePair(items[i]).value.0 == k
    decreases |items|
  {
    var init := items[..|items| - 1];
    var p := UpdatePair(items[|items| - 1]).value;
    if k != p.0 {
      UpdatePairsKeys(init, k);
      var i :| 0 <= i < |init| && UpdatePair(init[i]).Ok? && UpdatePair(init[i]).value.0 == k;
      assert init[i] == items[i];
    }
  }

  /** The name an "op" value is reported under. */
  function OpName(j: Json): string {
    if j.JStr? then j.s else "<non-string>"
  }

  /** Reading an op object's fields, as the `_op_*` functions do before acting. */
  function DecodeOp(op: Json): (r: Result<Op>)
    ensures r.Ok? ==> op.JObj? && "op" in op.fields
    ensures r.Ok? && r.value.Unknown? ==> r.value.name == op.fields["op"] && !(op.fields["op"].JStr? && op.fields["op"].s in OpNames)
    ensures r.Ok? && !r.value.Unknown? ==> op.fields["op"].JStr? && op.fields["op"].s in OpNames
  {
    if !op.JObj? then Err("TypeError: op must be an object")
    else
      var f := op.fields;
      if "op" !in f then Err("KeyError: op")
      else if f["op"] == JStr("merge") then
        var s :- IntField(f, "start_idx");
        var e :- IntField(f, "end_idx");
        Ok(Merge(s, e))
      else if f["op"] == JStr("move_tail") then
        var a :- IntField(f, "from_idx");
        var b :- IntField(f, "to_idx");
        if "sentences" !in f then Err("KeyError: sentences")
        else
          var k :- IntOf(f["sentences"]);
          Ok(MoveTail(a, b, k))
      else if f["op"] == JStr("split") then
        var i :- IntField(f, "idx");
        if "at" !in f then Err("KeyError: at")
        else if !f["at"].JStr? then Err("TypeError: at must be a string")
        else Ok(Split(i, f["at"].s))
      else if f["op"] == JStr("tag") then
        var i :- IntField(f, "idx");
        Ok(Tag(i, if "tags" in f then f["tags"] else JObj(map[])))
      else Ok(Unknown(f["op"]))
  }

  /** `_find_by_idx`: the first position holding `idx`, or "idx not found". */
  function FindByIdx(shots: seq<Shot>, idx: int): (r: Result<nat>)
    ensures r.Ok? ==> r.value < |shots| && shots[r.value].idx == idx
    ensures r.Ok? ==> forall j :: 0 <= j < r.value ==> shots[j].idx != idx
    ensures r.Err? <==> forall j :: 0 <= j < |shots| ==> shots[j].idx != idx
  {
    FindIdxFrom(shots, idx, 0)
  }

  function FindIdxFrom(shots: seq<Shot>, idx: int, from: nat): (r: Result<nat>)
    requires from <= |shots|
    requires forall j :: 0 <= j < from ==> shots[j].idx != idx
    ensures r.Ok? ==> from <= r.value < |shots| && shots[r.value].idx == idx
    ensures r.Ok? ==> forall j :: 0 <= j < r.value ==> shots[j].idx != idx
    ensures r.Err? <==> forall j :: 0 <= j < |shots| ==> shots[j].idx != idx
    decreases |shots| - from
  {
    if from == |shots| then Err("idx not found")
    else if shots[from].idx == idx then Ok(from)
    else FindIdxFrom(shots, idx, from + 1)
  }

  predicate HasSceneBreak(span: seq<Shot>) {
    exists s :: s in span && s.kind == SceneBreak
  }

  /** `_op_merge`: a contiguous run of shots, start..end by idx, becomes one `mixed` shot. */
  function MergeOp(shots: seq<Shot>, startIdx: int, endIdx: int, c: Constraints): Result<seq<Shot>> {
    if startIdx > endIdx then Err("merge: start_idx > end_idx")
    else
      var i0 :- FindByIdx(shots, startIdx);
      var i1 :- FindByIdx(shots, endIdx);
      if i1 < i0 then Err("merge: invalid range")
      else if i1 - i0 != endIdx - startIdx then Err("merge: range must be contiguous")
      else if c.forbidCrossSceneBreak && HasSceneBreak(shots[i0..i1 + 1]) then Err("merge: cannot include scene_break")
      else
        var merged := Shot(startIdx, Mixed, ConcatText(shots[i0..i1 + 1]), None);
        Ok(shots[..i0] + [merged] + shots[i1 + 1..])
  }

  /** `_op_split`: cut a shot right after the first occurrence of `at`; both halves keep kind and tags. */
  function SplitOp(shots: seq<Shot>, idx: int, at: string): Result<seq<Shot>> {
    var i :- FindByIdx(shots, idx);
    var text := shots[i].text;
    var pos := Find(text, at);
    if pos < 0 then Err("split: 'at' not found in shot text")
    else
      var cut := pos + |at|;
      var left, right := text[..cut], text[cut..];
      if IsBlank(left) || IsBlank(right) then Err("split: would create empty shot")
      else
        var l := Shot(idx, shots[i].kind, left, shots[i].tags);
        var r := Shot(idx + 1, shots[i].kind, right, shots[i].tags);
        Ok(shots[..i] + [l, r] + shots[i + 1..])
  }

  /** `_op_move_tail`: the last `k` sentence parts of one shot move to the front of the next one. */
  function MoveTailOp(shots: seq<Shot>, fromIdx: int, toIdx: int, k: int, c: Constraints): Result<seq<Shot>> {
    if toIdx != fromIdx + 1 then Err("move_tail: to_idx must be from_idx+1")
    else
      var i :- FindByIdx(shots, fromIdx);
      var j :- FindByIdx(shots, toIdx);
      if j != i + 1 then Err("move_tail: shots must be adjacent after prior ops")
      else if c.forbidCrossSceneBreak && (shots[i].kind == SceneBreak || shots[j].kind == SceneBreak) then
        Err("move_tail: cannot touch scene_break")
      else MoveTailAt(shots, i, SentenceParts(shots[i].text), k)
  }

  /** The text surgery of `_op_move_tail` on positions `i`, `i + 1`, given the sentence parts of shot `i`. */
  function MoveTailAt(shots: seq<Shot>, i: nat, parts: seq<string>, k: int): Result<seq<Shot>>
    requires i + 1 < |shots|
  {
    if k <= 0 || k >= |parts| then Err("move_tail: invalid sentences count")
    else
      var tail := Concat(parts[|parts| - k..]);
      var head := Concat(parts[..|parts| - k]);
      if Strip(head) == [] || Strip(tail) == [] then Err("move_tail: would create empty shot")
      else Ok(shots[i := shots[i].(text := head)][i + 1 := shots[i + 1].(text := tail + shots[i + 1].text)])
  }

  /** `_op_tag`: the shot's tags (a fresh map when it has none) are updated with `tags`, as `dict.update` does. */
  function TagOp(shots: seq<Shot>, idx: int, tags: Json): Result<seq<Shot>> {
    var i :- FindByIdx(shots, idx);
    var prior := if shots[i].tags.Some? then shots[i].tags.value else map[];
    var u :- UpdateEntries(tags);
    Ok(shots[i := shots[i].(tags := Some(prior + u))])
  }

  function ApplyOp(shots: seq<Shot>, op: Op, c: Constraints): Result<seq<Shot>> {
    match op
    case Merge(s, e) => MergeOp(shots, s, e, c)
    case MoveTail(a, b, k) => MoveTailOp(shots, a, b, k, c)
    case Split(i, at) => SplitOp(shots, i, at)
    case Tag(i, t) => TagOp(shots, i, t)
    case Unknown(n) => Err("unknown op: " + OpName(n))
  }

  /** One pass of the op loop of `apply_patch`: read the op, then run it. */
  function ApplyJsonOp(shots: seq<Shot>, op: Json, c: Constraints): Result<seq<Shot>> {
    var o :- DecodeOp(op);
    ApplyOp(shots, o, c)
  }

  /** The op loop: each op runs on the result of the previous one; the first failure ends the patch. */
  function ApplyOps(shots: seq<Shot>, ops: seq<Json>, c: Constraints): Result<seq<Shot>>
    decreases |ops|
  {
    if ops == [] then Ok(shots)
    else
      var next :- ApplyJsonOp(shots, ops[0], c);
      ApplyOps(next, ops[1..], c)
  }

  /** `patch.get("ops", [])`, iterated: a list, or an empty object or string (which yield nothing). */
  function PatchOps(patch: Json): Result<seq<Json>> {
    if !patch.JObj? then Err("AttributeError: patch has no get")
    else if "ops" !in patch.fields then Ok([])
    else
      match patch.fields["ops"]
      case JArr(items) => Ok(items)
      case JObj(m) => if m == map[] then Ok([]) else Err("TypeError: string indices must be integers")
      case JStr(s) => if s == [] then Ok([]) else Err("TypeError: string indices must be integers")
      case _ => Err("TypeError: ops is not iterable")
  }

  /** The working copy: `tags=(s.tags or None)` turns an empty tag map into `None`. */
  function CopyShot(s: Shot): Shot {
    s.(tags := if s.tags == Some(map[]) then None else s.tags)
  }

  function CopyShots(base: seq<Shot>): (r: seq<Shot>)
    ensures |r| == |base| && forall i :: 0 <= i < |base| ==> r[i] == CopyShot(base[i])
  {
    seq(|base|, i requires 0 <= i < |base| => CopyShot(base[i]))
  }

  /** The final renumbering: every shot's idx becomes its position. */
  function Renumber(shots: seq<Shot>): (r: seq<Shot>)
    ensures |r| == |shots| && forall i :: 0 <= i < |shots| ==> r[i] == shots[i].(idx := i)
  {
    seq(|shots|, i requires 0 <= i < |shots| => shots[i].(idx := i))
  }

  /** `apply_patch` as a function of its inputs. */
  function ApplyPatchSpec(base: seq<Shot>, patch: Json, c: Constraints): Result<seq<Shot>> {
    var ops :- PatchOps(patch);
    var shots :- ApplyOps(CopyShots(base), ops, c);
    Ok(Renumber(shots))
  }

  /** `apply_patch`: copy the shots, run the ops in order, then renumber in place. */
  method ApplyPatch(base: seq<Shot>, patch: Json, c: Constraints) returns (r: Result<seq<Shot>>)
    ensures r == ApplyPatchSpec(base, patch, c)
    ensures r.Ok? ==> NumberedInOrder(r.value)
  {
    var ops := PatchOps(patch);
    if ops.Err? {
      return Err(ops.msg);
    }
    var shots := CopyShots(base);
    for k := 0 to |ops.value|
      invariant ApplyOps(CopyShots(base), ops.value, c) == ApplyOps(shots, ops.value[k..], c)
    {
      assert ops.value[k..][1..] == ops.value[k + 1..];
      var op := DecodeOp(ops.value[k]);
      if op.Err? {
        return Err(op.msg);
      }
      var next;
      if op.value.MoveTail? {
        next := MoveTailStep(shots, op.value.fromIdx, op.value.toIdx, op.value.sentences, c);
      } else {
        next := ApplyOp(shots, op.value, c);
      }
      if next.Err? {
        return Err(next.msg);
      }
      shots := next.value;
    }
    assert ApplyOps(shots, ops.value[|ops.value|..], c) == Ok(shots);
    ghost var final := shots;
    for i := 0 to |shots|
      invariant |shots| == |final|
      invariant forall j :: 0 <= j < i ==> shots[j] == final[j].(idx := j)
      invariant forall j :: i <= j < |shots| ==> shots[j] == final[j]
    {
      shots := shots[i := shots[i].(idx := i)];
    }
    assert shots == Renumber(final);
    r := Ok(shots);
  }

  /** `_op_move_tail` run step by step: the two shot records are rewritten in the working list. */
  method MoveTailStep(shots: seq<Shot>, fromIdx: int, toIdx: int, k: int, c: Constraints) returns (r: Result<seq<Shot>>)
    ensures r == MoveTailOp(shots, fromIdx, toIdx, k, c)
  {
    if toIdx != fromIdx + 1 {
      return Err("move_tail: to_idx must be from_idx+1");
    }
    var fi := FindByIdx(shots, fromIdx);
    if fi.Err? {
      return Err(fi.msg);
    }
    var fj := FindByIdx(shots, toIdx);
    if fj.Err? {
      return Err(fj.msg);
    }
    var i, j := fi.value, fj.value;
    if j != i + 1 {
      return Err("move_tail: shots must be adjacent after prior ops");
    }
    if c.forbidCrossSceneBreak && (shots[i].kind == SceneBreak || shots[j].kind == SceneBreak) {
      return Err("move_tail: cannot touch scene_break");
    }
    var parts := SplitSentences(shots[i].text);
    assert MoveTailOp(shots, fromIdx, toIdx, k, c) == MoveTailAt(shots, i, parts, k);
    r := MoveTailParts(shots, i, parts, k);
  }

  /** The second half of `_op_move_tail`: the count check, then the two text fields rewritten in the working list. */
  method MoveTailParts(shots: seq<Shot>, i: nat, parts: seq<string>, k: int) returns (r: Result<seq<Shot>>)
    requires i + 1 < |shots|
    ensures r == MoveTailAt(shots, i, parts, k)
  {
    if k <= 0 || k >= |parts| {
      return Err("move_tail: invalid sentences count");
    }
    var tail := Concat(parts[|parts| - k..]);
    var head := Concat(parts[..|parts| - k]);
    if Strip(head) == [] || Strip(tail) == [] {
      return Err("move_tail: would create empty shot");
    }
    var work := shots;
    work := work[i := work[i].(text := head)];
    work := work[i + 1 := work[i + 1].(text := tail + work[i + 1].text)];
    r := Ok(work);
  }

  /** A move_tail that succeeds passed the checks on idx values and scene breaks. */
  lemma MoveTailChecks(shots: seq<Shot>, a: int, b: int, k: int, c: Constraints)
    requires MoveTailOp(shots, a, b, k, c).Ok?
    ensures b == a + 1 && FindByIdx(shots, a).Ok? && FindByIdx(shots, b).Ok?
    ensures FindByIdx(shots, b).value == FindByIdx(shots, a).value + 1
    ensures var i := FindByIdx(shots, a).value;
      !(c.forbidCrossSceneBreak && (shots[i].kind == SceneBreak || shots[i + 1].kind == SceneBreak))
  {
  }

  /** Once the checks on idx values and scene breaks pass, move_tail is the surgery on the found position. */
  lemma MoveTailOpIsAt(shots: seq<Shot>, a: int, b: int, k: int, c: Constraints)
    requires b == a + 1 && FindByIdx(shots, a).Ok? && FindByIdx(shots, b).Ok?
    requires FindByIdx(shots, b).value == FindByIdx(shots, a).value + 1
    requires var i := FindByIdx(shots, a).value;
      !(c.forbidCrossSceneBreak && (shots[i].kind == SceneBreak || shots[i + 1].kind == SceneBreak))
    ensures var i := FindByIdx(shots, a).value;
      MoveTailOp(shots, a, b, k, c) == MoveTailAt(shots, i, SentenceParts(shots[i].text), k)
  {
  }

  // ---------------------------------------------------------------- text of a shot sequence

  lemma ConcatTextSplice(pre: seq<Shot>, mid: seq<Shot>, post: seq<Shot>)
    ensures ConcatText(pre + mid + post) == ConcatText(pre) + ConcatText(mid) + ConcatText(post)
  {
    ConcatTextAppend(pre + mid, post);
    ConcatTextAppend(pre, mid);
  }

  lemma ConcatTextOne(x: Shot)
    ensures ConcatText([x]) == x.text
  {
    assert [x][1..] == [];
    assert x.text + [] == x.text;
  }

  lemma ConcatTextTwo(x: Shot, y: Shot)
    ensures ConcatText([x, y]) == x.text + y.text
  {
    assert [x, y][1..] == [y];
    ConcatTextOne(y);
  }

  /** The text of a sequence is the text before position `i`, of the window `i..j`, and after it. */
  lemma ConcatTextWindow(shots: seq<Shot>, i: nat, j: nat)
    requires i <= j <= |shots|
    ensures ConcatText(shots) == ConcatText(shots[..i]) + ConcatText(shots[i..j]) + ConcatText(shots[j..])
  {
    Split3(shots, i, j);
    ConcatTextSplice(shots[..i], shots[i..j], shots[j..]);
  }

  // ---------------------------------------------------------------- properties of the operations

  /**
   * merge succeeds exactly when start <= end, both idx values are found, the end
   * shot is not before the start shot, the positions are contiguous and, under
   * the scene-break rule, no spanned shot is a scene break.
   */
  lemma MergeOkIff(shots: seq<Shot>, s: int, e: int, c: Constraints)
    ensures var f0, f1 := FindByIdx(shots, s), FindByIdx(shots, e);
      MergeOp(shots, s, e, c).Ok? <==>
        && s <= e && f0.Ok? && f1.Ok? && f0.value <= f1.value && f1.value - f0.value == e - s
        && !(c.forbidCrossSceneBreak && HasSceneBreak(shots[f0.value..f1.value + 1]))
  {
  }

  /**
   * A successful merge replaces the span by one `mixed`, untagged shot with the
   * start idx holding the span's text in order; the shots around it stay, so the
   * sequence shrinks by end - start and its text is unchanged.
   */
  lemma MergeResult(shots: seq<Shot>, s: int, e: int, c: Constraints)
    requires MergeOp(shots, s, e, c).Ok?
    ensures var r := MergeOp(shots, s, e, c).value;
      && FindByIdx(shots, s).Ok? && FindByIdx(shots, e).Ok?
      && var i0, i1 := FindByIdx(shots, s).value, FindByIdx(shots, e).value;
      && i0 <= i1 && |r| == |shots| - (e - s)
      && r[..i0] == shots[..i0] && r[i0 + 1..] == shots[i1 + 1..]
      && r[i0] == Shot(s, Mixed, ConcatText(shots[i0..i1 + 1]), None)
      && ConcatText(r) == ConcatText(shots)
  {
    MergeOkIff(shots, s, e, c);
    var i0, i1 := FindByIdx(shots, s).value, FindByIdx(shots, e).value;
    var merged := Shot(s, Mixed, ConcatText(shots[i0..i1 + 1]), None);
    var pre, post := shots[..i0], shots[i1 + 1..];
    assert MergeOp(shots, s, e, c).value == pre + [merged] + post;
    SpliceOne(pre, merged, post);
    ConcatTextWindow(shots, i0, i1 + 1);
  }

  /** Putting one shot between two sequences. */
  lemma SpliceOne(pre: seq<Shot>, x: Shot, post: seq<Shot>)
    ensures var r := pre + [x] + post;
      && |r| == |pre| + 1 + |post| && r[|pre|] == x && r[..|pre|] == pre && r[|pre| + 1..] == post
      && ConcatText(r) == ConcatText(pre) + x.text + ConcatText(post)
  {
    var r := pre + [x] + post;
    assert r[|pre| + 1..] == post;
    ConcatTextSplice(pre, [x], post);
    ConcatTextOne(x);
  }

  /** split succeeds exactly when the idx is found, `at` occurs in the shot's text and neither half is blank. */
  lemma SplitOkIff(shots: seq<Shot>, d: int, at: string)
    ensures var f := FindByIdx(shots, d);
      SplitOp(shots, d, at).Ok? <==>
        && f.Ok? && Find(shots[f.value].text, at) >= 0
        && var cut := Find(shots[f.value].text, at) + |at|;
           !IsBlank(shots[f.value].text[..cut]) && !IsBlank(shots[f.value].text[cut..])
  {
    var f := FindByIdx(shots, d);
    if f.Ok? {
      var t := shots[f.value].text;
      var pos := Find(t, at);
      if pos >= 0 {
        var cut := pos + |at|;
        var left, right := t[..cut], t[cut..];
        if !IsBlank(left) && !IsBlank(right) {
          SplitOkValue(shots, d, at, f.value, pos);
        }
      }
    }
  }

  /**
   * A successful split cuts the shot right after the first occurrence of `at`:
   * the left half ends with `at`, no earlier occurrence exists, the two halves
   * concatenate to the original text, they take idx and idx + 1 and both keep
   * kind and tags; the other shots stay in place, so the sequence grows by one
   * and its text is unchanged.
   */
  lemma SplitResult(shots: seq<Shot>, d: int, at: string)
    requires SplitOp(shots, d, at).Ok?
    ensures var r := SplitOp(shots, d, at).value;
      && FindByIdx(shots, d).Ok? && |r| == |shots| + 1
      && var i, t := FindByIdx(shots, d).value, shots[FindByIdx(shots, d).value].text;
      && r[..i] == shots[..i] && r[i + 2..] == shots[i + 1..]
      && r[i].text + r[i + 1].text == t
      && |at| <= |r[i].text| && r[i].text[|r[i].text| - |at|..] == at
      && (forall j :: 0 <= j < |r[i].text| - |at| ==> !OccursAt(t, at, j))
      && r[i].idx == d && r[i + 1].idx == d + 1
      && r[i].kind == r[i + 1].kind == shots[i].kind && r[i].tags == r[i + 1].tags == shots[i].tags
      && ConcatText(r) == ConcatText(shots)
  {
    SplitOkIff(shots, d, at);
    var i := FindByIdx(shots, d).value;
    var t := shots[i].text;
    var pos := Find(t, at);
    var cut := pos + |at|;
    var left, right := t[..cut], t[cut..];
    var l := Shot(d, shots[i].kind, left, shots[i].tags);
    var rt := Shot(d + 1, shots[i].kind, right, shots[i].tags);
    SplitOkValue(shots, d, at, i, pos);
    SpliceTwo(shots, i, l, rt);
    assert left + right == t;
    assert left[pos..] == t[pos..cut];
  }

  lemma SplitOkValue(shots: seq<Shot>, d: int, at: string, i: nat, pos: nat)
    requires FindByIdx(shots, d) == Ok(i) && Find(shots[i].text, at) == pos
    requires !IsBlank(shots[i].text[..pos + |at|]) && !IsBlank(shots[i].text[pos + |at|..])
    ensures var t := shots[i].text;
      SplitOp(shots, d, at) == Ok(shots[..i] + [Shot(d, shots[i].kind, t[..pos + |at|], shots[i].tags),
                                              Shot(d + 1, shots[i].kind, t[pos + |at|..], shots[i].tags)] + shots[i + 1..])
  {
    var t := shots[i].text;
    var cut := pos + |at|;
    var left, right := t[..cut], t[cut..];
    assert !IsBlank(left) && !IsBlank(right);
  }

  /** Replacing the shot at `i` by two shots `l`, `rt`. */
  lemma SpliceTwo(shots: seq<Shot>, i: nat, l: Shot, rt: Shot)
    requires i < |shots|
    ensures var r := shots[..i] + [l, rt] + shots[i + 1..];
      && |r| == |shots| + 1 && r[i] == l && r[i + 1] == rt
      && r[..i] == shots[..i] && r[i + 2..] == shots[i + 1..]
      && ConcatText(r) == ConcatText(shots[..i]) + (l.text + rt.text) + ConcatText(shots[i + 1..])
      && ConcatText(shots) == ConcatText(shots[..i]) + shots[i].text + ConcatText(shots[i + 1..])
  {
    var r := shots[..i] + [l, rt] + shots[i + 1..];
    assert r[i + 2..] == shots[i + 1..];
    ConcatTextSplice(shots[..i], [l, rt], shots[i + 1..]);
    ConcatTextTwo(l, rt);
    ConcatTextWindow(shots, i, i + 1);
    assert shots[i..i + 1] == [shots[i]];
    ConcatTextOne(shots[i]);
  }

  /** What `move_tail` relies on about the sentence parts of a text: none is blank and together they normalise like it. */
  predicate PartsOf(parts: seq<string>, text: string) {
    && (forall j :: 0 <= j < |parts| ==> !IsBlank(parts[j]))
    && NormalizeText(Concat(parts)) == NormalizeText(text)
  }

  lemma SentencePartsOf(text: string)
    ensures PartsOf(SentenceParts(text), text)
  {
    var parts := SentenceParts(text);
    SentencePartsProps(text);
    forall j | 0 <= j < |parts| ensures !IsBlank(parts[j]) {
      StripEmptyIffBlank(parts[j]);
    }
  }

  /** A concatenation whose first string is not blank is not blank. */
  lemma NonBlankHead(ss: seq<string>)
    requires ss != [] && !IsBlank(ss[0])
    ensures !IsBlank(Concat(ss))
  {
    var j :| 0 <= j < |ss[0]| && !IsSpace(ss[0][j]);
    assert Concat(ss)[j] == ss[0][j];
  }

  lemma NormalizeShift(h: string, t: string, x: string, y: string)
    requires NormalizeText(h + t) == NormalizeText(x)
    ensures NormalizeText(h + (t + y)) == NormalizeText(x + y)
  {
    calc {
      NormalizeText(h + (t + y));
      { NormalizeConcat(h, t + y); }
      NormalizeText(h) + NormalizeText(t + y);
      { NormalizeConcat(t, y); }
      NormalizeText(h) + (NormalizeText(t) + NormalizeText(y));
      (NormalizeText(h) + NormalizeText(t)) + NormalizeText(y);
      { NormalizeConcat(h, t); }
      NormalizeText(h + t) + NormalizeText(y);
      NormalizeText(x) + NormalizeText(y);
      { NormalizeConcat(x, y); }
      NormalizeText(x + y);
    }
  }

  lemma NormalizeFrame(p: string, x: string, y: string, q: string)
    requires NormalizeText(x) == NormalizeText(y)
    ensures NormalizeText(p + x + q) == NormalizeText(p + y + q)
  {
    calc {
      NormalizeText(p + x + q);
      { NormalizeConcat(p + x, q); }
      NormalizeText(p + x) + NormalizeText(q);
      { NormalizeConcat(p, x); }
      NormalizeText(p) + NormalizeText(x) + NormalizeText(q);
      NormalizeText(p) + NormalizeText(y) + NormalizeText(q);
      { NormalizeConcat(p, y); }
      NormalizeText(p + y) + NormalizeText(q);
      { NormalizeConcat(p + y, q); }
      NormalizeText(p + y + q);
    }
  }

  /**
   * On non-blank parts, the surgery of move_tail fails only on a count outside
   * 0 < k < number of parts: its "would create empty shot" check never fires.
   */
  lemma MoveTailAtOk(shots: seq<Shot>, i: nat, parts: seq<string>, k: int)
    requires i + 1 < |shots| && forall j :: 0 <= j < |parts| ==> !IsBlank(parts[j])
    ensures MoveTailAt(shots, i, parts, k).Ok? <==> 0 < k < |parts|
  {
    if 0 < k < |parts| {
      HeadTailNonBlank(parts, k);
    }
  }

  /**
   * On success the source keeps the first parts, the destination gets the last
   * `k` parts in front of its text, nothing else changes, and when the parts
   * make up the source text the normalised text of the sequence is kept.
   */
  lemma MoveTailAtValue(shots: seq<Shot>, i: nat, parts: seq<string>, k: int)
    requires i + 1 < |shots| && MoveTailAt(shots, i, parts, k).Ok?
    requires NormalizeText(Concat(parts)) == NormalizeText(shots[i].text)
    ensures MovedTail(shots, i, parts, k, MoveTailAt(shots, i, parts, k).value)
  {
    MoveTailAtOkValue(shots, i, parts, k);
    MovedTailOf(shots, i, parts, k);
  }

  /** The two field updates of a move_tail, read as a surgery on the sequence. */
  lemma MovedTailOf(shots: seq<Shot>, i: nat, parts: seq<string>, k: int)
    requires i + 1 < |shots| && 0 < k < |parts|
    requires NormalizeText(Concat(parts)) == NormalizeText(shots[i].text)
    ensures var n := |parts|;
      MovedTail(shots, i, parts, k, shots[i := shots[i].(text := Concat(parts[..n - k]))][i + 1 := shots[i + 1].(text := Concat(parts[n - k..]) + shots[i + 1].text)])
  {
    HeadTailConcat(parts, k);
    MoveTailRetext(shots, i, Concat(parts[..|parts| - k]), Concat(parts[|parts| - k..]));
  }

  /**
   * `r` is `shots` after the last `k` of the `parts` of shot `i` moved to the
   * front of shot `i + 1`, with the normalised text of the sequence kept.
   */
  predicate MovedTail(shots: seq<Shot>, i: nat, parts: seq<string>, k: int, r: seq<Shot>)
    requires i + 1 < |shots|
  {
    var n := |parts|;
    && 0 < k < n
    && r == shots[..i] + [shots[i].(text := Concat(parts[..n - k])), shots[i + 1].(text := Concat(parts[n - k..]) + shots[i + 1].text)] + shots[i + 2..]
    && NormalizeText(ConcatText(r)) == NormalizeText(ConcatText(shots))
  }

  /** What a successful surgery returns. */
  lemma MoveTailAtOkValue(shots: seq<Shot>, i: nat, parts: seq<string>, k: int)
    requires i + 1 < |shots| && MoveTailAt(shots, i, parts, k).Ok?
    ensures 0 < k < |parts|
    ensures MoveTailAt(shots, i, parts, k).value
      == shots[i := shots[i].(text := Concat(parts[..|parts| - k]))][i + 1 := shots[i + 1].(text := Concat(parts[|parts| - k..]) + shots[i + 1].text)]
  {
  }

  /** A new head for the source and the tail moved in front of the destination keep the normalised text. */
  lemma MoveTailRetext(shots: seq<Shot>, i: nat, head: string, tail: string)
    requires i + 1 < |shots|
    requires NormalizeText(head + tail) == NormalizeText(shots[i].text)
    ensures var x, y := shots[i], shots[i + 1];
      && shots[i := x.(text := head)][i + 1 := y.(text := tail + y.text)] == shots[..i] + [x.(text := head), y.(text := tail + y.text)] + shots[i + 2..]
      && NormalizeText(ConcatText(shots[..i] + [x.(text := head), y.(text := tail + y.text)] + shots[i + 2..])) == NormalizeText(ConcatText(shots))
  {
    NormalizeShift(head, tail, shots[i].text, shots[i + 1].text);
    RetextPair(shots, i, head, tail + shots[i + 1].text);
  }

  lemma HeadTailNonBlank(parts: seq<string>, k: int)
    requires 0 < k < |parts| && forall j :: 0 <= j < |parts| ==> !IsBlank(parts[j])
    ensures Strip(Concat(parts[..|parts| - k])) != [] && Strip(Concat(parts[|parts| - k..])) != []
  {
    var n := |parts|;
    var hs, ts := parts[..n - k], parts[n - k..];
    assert hs[0] == parts[0];
    assert ts[0] == parts[n - k];
    NonBlankHead(hs);
    NonBlankHead(ts);
    StripEmptyIffBlank(Concat(hs));
    StripEmptyIffBlank(Concat(ts));
  }

  lemma HeadTailConcat(parts: seq<string>, k: int)
    requires 0 <= k <= |parts|
    ensures Concat(parts[..|parts| - k]) + Concat(parts[|parts| - k..]) == Concat(parts)
  {
    var n := |parts|;
    var hs, ts := parts[..n - k], parts[n - k..];
    assert hs + ts == parts;
    ConcatAppend(hs, ts);
  }

  /**
   * Giving the shots at `i` and `i + 1` new texts whose concatenation normalises
   * like the old pair's keeps the normalised text of the sequence.
   */
  lemma RetextPair(shots: seq<Shot>, i: nat, u: string, v: string)
    requires i + 1 < |shots|
    requires NormalizeText(u + v) == NormalizeText(shots[i].text + shots[i + 1].text)
    ensures shots[i := shots[i].(text := u)][i + 1 := shots[i + 1].(text := v)]
      == shots[..i] + [shots[i].(text := u), shots[i + 1].(text := v)] + shots[i + 2..]
    ensures NormalizeText(ConcatText(shots[..i] + [shots[i].(text := u), shots[i + 1].(text := v)] + shots[i + 2..]))
      == NormalizeText(ConcatText(shots))
  {
    var x, y := shots[i].(text := u), shots[i + 1].(text := v);
    UpdatePairSplice(shots, i, x, y);
    var pre, post := ConcatText(shots[..i]), ConcatText(shots[i + 2..]);
    calc {
      NormalizeText(ConcatText(shots[..i] + [x, y] + shots[i + 2..]));
      { ConcatTextSplice(shots[..i], [x, y], shots[i + 2..]);
        ConcatTextTwo(x, y); }
      NormalizeText(pre + (u + v) + post);
      { NormalizeFrame(pre, u + v, shots[i].text + shots[i + 1].text, post); }
      NormalizeText(pre + (shots[i].text + shots[i + 1].text) + post);
      { PairWindowText(shots, i); }
      NormalizeText(ConcatText(shots));
    }
  }

  /** Replacing the shots at `i` and `i + 1` is splicing a new pair in. */
  lemma UpdatePairSplice(shots: seq<Shot>, i: nat, x: Shot, y: Shot)
    requires i + 1 < |shots|
    ensures shots[i := x][i + 1 := y] == shots[..i] + [x, y] + shots[i + 2..]
  {
  }

  /** The text of a sequence around the pair at `i`. */
  lemma PairWindowText(shots: seq<Shot>, i: nat)
    requires i + 1 < |shots|
    ensures ConcatText(shots) == ConcatText(shots[..i]) + (shots[i].text + shots[i + 1].text) + ConcatText(shots[i + 2..])
  {
    calc {
      ConcatText(shots);
      { ConcatTextWindow(shots, i, i + 2); }
      ConcatText(shots[..i]) + ConcatText(shots[i..i + 2]) + ConcatText(shots[i + 2..]);
      { WindowTwoText(shots, i); }
      ConcatText(shots[..i]) + (shots[i].text + shots[i + 1].text) + ConcatText(shots[i + 2..]);
    }
  }

  lemma WindowTwoText(shots: seq<Shot>, i: nat)
    requires i + 1 < |shots|
    ensures ConcatText(shots[i..i + 2]) == shots[i].text + shots[i + 1].text
  {
    assert shots[i..i + 2] == [shots[i], shots[i + 1]];
    ConcatTextTwo(shots[i], shots[i + 1]);
  }

  /**
   * move_tail succeeds exactly when to == from + 1, both idx values are found at
   * adjacent positions, under the scene-break rule neither shot is a scene break,
   * and 0 < k < the number of sentence parts of the source shot; its "would
   * create empty shot" check never fires.
   */
  lemma MoveTailOkIff(shots: seq<Shot>, a: int, b: int, k: int, c: Constraints)
    ensures var fi, fj := FindByIdx(shots, a), FindByIdx(shots, b);
      MoveTailOp(shots, a, b, k, c).Ok? <==>
        && b == a + 1 && fi.Ok? && fj.Ok? && fj.value == fi.value + 1
        && !(c.forbidCrossSceneBreak && (shots[fi.value].kind == SceneBreak || shots[fj.value].kind == SceneBreak))
        && 0 < k < |SentenceParts(shots[fi.value].text)|
  {
    var fi, fj := FindByIdx(shots, a), FindByIdx(shots, b);
    if b == a + 1 && fi.Ok? && fj.Ok? && fj.value == fi.value + 1 {
      var i := fi.value;
      if !(c.forbidCrossSceneBreak && (shots[i].kind == SceneBreak || shots[i + 1].kind == SceneBreak)) {
        MoveTailOpIsAt(shots, a, b, k, c);
        var parts := SentenceParts(shots[i].text);
        SentencePartsOf(shots[i].text);
        MoveTailAtOk(shots, i, parts, k);
      }
    }
  }

  /**
   * A successful move_tail leaves the first parts in the source shot and puts
   * the last `k` parts in front of the destination's text; nothing else changes,
   * the count is the same, and the normalised text of the sequence is unchanged.
   */
  lemma MoveTailResult(shots: seq<Shot>, a: int, b: int, k: int, c: Constraints)
    requires MoveTailOp(shots, a, b, k, c).Ok?
    ensures FindByIdx(shots, a).Ok? && FindByIdx(shots, a).value + 1 < |shots|
    ensures var i := FindByIdx(shots, a).value;
      MovedTail(shots, i, SentenceParts(shots[i].text), k, MoveTailOp(shots, a, b, k, c).value)
  {
    MoveTailChecks(shots, a, b, k, c);
    var i := FindByIdx(shots, a).value;
    MoveTailOpIsAt(shots, a, b, k, c);
    var parts := SentenceParts(shots[i].text);
    SentencePartsOf(shots[i].text);
    MoveTailAtValue(shots, i, parts, k);
  }

  /** tag succeeds exactly when the idx is found and `dict.update` accepts the value; it only merges the entries into that shot's tags, new values winning. */
  lemma TagProps(shots: seq<Shot>, d: int, t: Json)
    ensures var r := TagOp(shots, d, t);
      var f := FindByIdx(shots, d);
      && (r.Ok? <==> f.Ok? && UpdateEntries(t).Ok?)
      && (r.Ok? ==>
            && f.Ok? && UpdateEntries(t).Ok? && |r.value| == |shots|
            && var tags := UpdateEntries(t).value;
            && var i := f.value;
            var prior := if shots[i].tags.Some? then shots[i].tags.value else map[];
            && r.value[i].idx == shots[i].idx && r.value[i].kind == shots[i].kind && r.value[i].text == shots[i].text
            && r.value[i].tags.Some?
            && (forall key :: key in tags ==> key in r.value[i].tags.value && r.value[i].tags.value[key] == tags[key])
            && (forall key :: key in prior && key !in tags ==> key in r.value[i].tags.value && r.value[i].tags.value[key] == prior[key])
            && (forall key :: key in r.value[i].tags.value ==> key in prior || key in tags)
            && (forall j :: 0 <= j < |shots| && j != i ==> r.value[j] == shots[j])
            && ConcatText(r.value) == ConcatText(shots))
  {
    var r := TagOp(shots, d, t);
    if r.Ok? {
      var i := FindByIdx(shots, d).value;
      var x := r.value[i];
      assert r.value == shots[..i] + [x] + shots[i + 1..];
      ConcatTextSplice(shots[..i], [x], shots[i + 1..]);
      ConcatTextOne(x);
      ConcatTextWindow(shots, i, i + 1);
      assert shots[i..i + 1] == [shots[i]];
      ConcatTextOne(shots[i]);
    }
  }

  // ---------------------------------------------------------------- the patch as a whole

  /** Every op keeps the normalised text; all but move_tail keep the text exactly. */
  lemma ApplyOpConserves(shots: seq<Shot>, op: Op, c: Constraints)
    requires ApplyOp(shots, op, c).Ok?
    ensures NormalizeText(ConcatText(ApplyOp(shots, op, c).value)) == NormalizeText(ConcatText(shots))
    ensures !op.MoveTail? ==> ConcatText(ApplyOp(shots, op, c).value) == ConcatText(shots)
  {
    match op
    case Merge(s, e) => MergeResult(shots, s, e, c);
    case MoveTail(a, b, k) => MoveTailResult(shots, a, b, k, c);
    case Split(i, at) => SplitResult(shots, i, at);
    case Tag(i, t) => TagProps(shots, i, t);
  }

  /** An op object that applies is well formed, and applying it keeps the normalised text. */
  lemma ApplyJsonOpConserves(shots: seq<Shot>, op: Json, c: Constraints)
    requires ApplyJsonOp(shots, op, c).Ok?
    ensures WellFormedOp(op)
    ensures NormalizeText(ConcatText(ApplyJsonOp(shots, op, c).value)) == NormalizeText(ConcatText(shots))
  {
    ApplyOpConserves(shots, DecodeOp(op).value, c);
  }

  /** A run of ops that succeeds consisted of well-formed ops only and kept the normalised text. */
  lemma {:induction false} ApplyOpsConserves(shots: seq<Shot>, ops: seq<Json>, c: Constraints)
    requires ApplyOps(shots, ops, c).Ok?
    ensures NormalizeText(ConcatText(ApplyOps(shots, ops, c).value)) == NormalizeText(ConcatText(shots))
    ensures forall i :: 0 <= i < |ops| ==> WellFormedOp(ops[i])
    decreases |ops|
  {
    if ops != [] {
      var next := ApplyJsonOp(shots, ops[0], c).value;
      ApplyJsonOpConserves(shots, ops[0], c);
      ApplyOpsConserves(next, ops[1..], c);
      forall i | 0 <= i < |ops| ensures WellFormedOp(ops[i]) {
        if i > 0 {
          assert ops[i] == ops[1..][i - 1];
        }
      }
    }
  }

  /** Shots with the same texts in the same order have the same concatenated text. */
  lemma {:induction false} ConcatTextSameTexts(a: seq<Shot>, b: seq<Shot>)
    requires |a| == |b| && forall i :: 0 <= i < |a| ==> a[i].text == b[i].text
    ensures ConcatText(a) == ConcatText(b)
  {
    if a != [] {
      ConcatTextSameTexts(a[1..], b[1..]);
    }
  }

  /**
   * A patch that applies keeps the normalised text of the shots, so it always
   * passes the conservation check; its ops pass the syntax check, and the
   * result is numbered 0, 1, 2, ... in order.
   */
  lemma ApplyPatchConserves(base: seq<Shot>, patch: Json, c: Constraints)
    requires ApplyPatchSpec(base, patch, c).Ok?
    ensures var r := ApplyPatchSpec(base, patch, c).value;
      && ValidateTextConservation(base, r).Pass?
      && ValidateOpsSyntax(PatchOps(patch).value).Pass?
      && NumberedInOrder(r)
  {
    var ops := PatchOps(patch).value;
    var copy := CopyShots(base);
    var shots := ApplyOps(copy, ops, c).value;
    ApplyOpsConserves(copy, ops, c);
    ConcatTextSameTexts(base, copy);
    ConcatTextSameTexts(shots, Renumber(shots));
  }

  /** A patch without ops hands back the shots unchanged when they are numbered in order and no tag map is empty. */
  lemma EmptyPatchIsIdentity(base: seq<Shot>, c: Constraints)
    requires NumberedInOrder(base) && forall i :: 0 <= i < |base| ==> base[i].tags != Some(map[])
    ensures ApplyPatchSpec(base, JObj(map["ops" := JArr([])]), c) == Ok(base)
    ensures ApplyPatchSpec(base, JObj(map[]), c) == Ok(base)
  {
    assert Renumber(CopyShots(base)) == base;
  }

  /**
   * Merging the two halves of a split restores the text of the shot: in shots
   * numbered in order, split(d, at) then merge(d, d + 1) gives back the original
   * sequence except that the restored shot is `mixed` and untagged.  The merge is
   * refused under the scene-break rule when the shot was a scene break.
   */
  lemma SplitThenMerge(shots: seq<Shot>, d: int, at: string, c: Constraints)
    requires NumberedInOrder(shots) && SplitOp(shots, d, at).Ok?
    ensures var r := SplitOp(shots, d, at).value;
      var m := MergeOp(r, d, d + 1, c);
      && 0 <= d < |shots|
      && (m.Ok? <==> !(c.forbidCrossSceneBreak && shots[d].kind == SceneBreak))
      && (m.Ok? ==> m.value == shots[d := shots[d].(kind := Mixed, tags := None)])
  {
    SplitFinds(shots, d, at);
    var r := SplitOp(shots, d, at).value;
    MergeOkIff(r, d, d + 1, c);
    HasSceneBreakPair(r[d..d + 2]);
    if MergeOp(r, d, d + 1, c).Ok? {
      SplitMergeValue(shots, d, at, c);
    }
  }

  /** After a split of shot `d` in shots numbered in order, idx `d` and `d + 1` are found at the two halves. */
  lemma SplitFinds(shots: seq<Shot>, d: int, at: string)
    requires NumberedInOrder(shots) && SplitOp(shots, d, at).Ok?
    ensures var r := SplitOp(shots, d, at).value;
      && 0 <= d < |shots| && |r| == |shots| + 1
      && FindByIdx(shots, d) == Ok(d) && FindByIdx(r, d) == Ok(d) && FindByIdx(r, d + 1) == Ok(d + 1)
      && r[d].kind == r[d + 1].kind == shots[d].kind
  {
    var i := FindByIdx(shots, d).value;
    assert i == d;
    SplitOkIff(shots, d, at);
    var t, pos := shots[d].text, Find(shots[d].text, at);
    var l := Shot(d, shots[d].kind, t[..pos + |at|], shots[d].tags);
    var rt := Shot(d + 1, shots[d].kind, t[pos + |at|..], shots[d].tags);
    SplitOkValue(shots, d, at, d, pos);
    SpliceTwo(shots, d, l, rt);
    var r := shots[..d] + [l, rt] + shots[d + 1..];
    forall j | 0 <= j < d ensures r[j].idx == j {
      assert r[j] == r[..d][j];
    }
    FindFirstAt(r, d, d);
    FindFirstAt(r, d + 1, d + 1);
  }

  lemma HasSceneBreakPair(span: seq<Shot>)
    requires |span| == 2
    ensures HasSceneBreak(span) <==> span[0].kind == SceneBreak || span[1].kind == SceneBreak
  {
    if HasSceneBreak(span) {
      var x :| x in span && x.kind == SceneBreak;
    } else {
      assert span[0] in span && span[1] in span;
    }
  }

  lemma SplitMergeValue(shots: seq<Shot>, d: int, at: string, c: Constraints)
    requires NumberedInOrder(shots) && SplitOp(shots, d, at).Ok?
    requires MergeOp(SplitOp(shots, d, at).value, d, d + 1, c).Ok?
    ensures 0 <= d < |shots|
    ensures MergeOp(SplitOp(shots, d, at).value, d, d + 1, c).value == shots[d := shots[d].(kind := Mixed, tags := None)]
  {
    SplitFinds(shots, d, at);
    SplitResult(shots, d, at);
    var r := SplitOp(shots, d, at).value;
    MergeResult(r, d, d + 1, c);
    MergeBack(shots, d, r, MergeOp(r, d, d + 1, c).value);
  }

  /** Merging back the two halves of shot `d` gives shot `d` again, `mixed` and untagged. */
  lemma MergeBack(shots: seq<Shot>, d: nat, r: seq<Shot>, m: seq<Shot>)
    requires d < |shots| && shots[d].idx == d
    requires |r| == |shots| + 1 && r[..d] == shots[..d] && r[d + 2..] == shots[d + 1..]
    requires r[d].text + r[d + 1].text == shots[d].text
    requires |m| == |r| - 1 && m[..d] == r[..d] && m[d + 1..] == r[d + 2..]
    requires m[d] == Shot(d, Mixed, ConcatText(r[d..d + 2]), None)
    ensures m == shots[d := shots[d].(kind := Mixed, tags := None)]
  {
    assert r[d..d + 2] == [r[d], r[d + 1]];
    ConcatTextTwo(r[d], r[d + 1]);
    assert m == m[..d] + [m[d]] + m[d + 1..];
  }

  /** The first shot carrying `idx` is at `i` when `shots[i]` carries it and no earlier one does. */
  lemma FindFirstAt(shots: seq<Shot>, idx: int, i: nat)
    requires i < |shots| && shots[i].idx == idx
    requires forall j :: 0 <= j < i ==> shots[j].idx != idx
    ensures FindByIdx(shots, idx) == Ok(i)
  {
  }

  // ---------------------------------------------------------------- the source's test cases

  /** A `tag` op on the only shot sets its tags to the given map. */
  lemma TagTestCase()
    ensures var shots := [Shot(0, Mixed, "文本。", None)];
      var tags := map["emotion" := JStr("calm")];
      var op := JObj(map["op" := JStr("tag"), "idx" := JInt(0), "tags" := JObj(tags)]);
      var r := ApplyPatchSpec(shots, JObj(map["ops" := JArr([op])]), DefaultConstraints);
      r.Ok? && |r.value| == 1 && r.value[0].tags == Some(tags)
  {
    var shots := [Shot(0, Mixed, "文本。", None)];
    var tags := map["emotion" := JStr("calm")];
    var op := JObj(map["op" := JStr("tag"), "idx" := JInt(0), "tags" := JObj(tags)]);
    assert DecodeOp(op) == Ok(Tag(0, JObj(tags)));
    FindFirstAt(shots, 0, 0);
    assert map[] + tags == tags;
    assert shots[0 := shots[0].(tags := Some(tags))] == [Shot(0, Mixed, "文本。", Some(tags))];
    assert TagOp(shots, 0, JObj(tags)) == Ok([Shot(0, Mixed, "文本。", Some(tags))]);
    assert ApplyJsonOp(shots, op, DefaultConstraints) == Ok([Shot(0, Mixed, "文本。", Some(tags))]);
    assert ApplyOps(shots, [op], DefaultConstraints) == Ok([Shot(0, Mixed, "文本。", Some(tags))]);
    assert CopyShots(shots) == shots;
  }

  /** A list of pairs and a list of two-character strings tag like the object they spell; an empty list or string adds nothing. */
  lemma TagOtherForms(shots: seq<Shot>, d: int)
    ensures TagOp(shots, d, JArr([JArr([JStr("emotion"), JStr("calm")])])) == TagOp(shots, d, JObj(map["emotion" := JStr("calm")]))
    ensures TagOp(shots, d, JArr([JStr("ab")])) == TagOp(shots, d, JObj(map["a" := JStr("b")]))
    ensures TagOp(shots, d, JArr([])) == TagOp(shots, d, JObj(map[])) == TagOp(shots, d, JStr(""))
    ensures TagOp(shots, d, JStr("ab")).Err? && TagOp(shots, d, JNull).Err?
  {
    assert UpdatePairs([JArr([JStr("emotion"), JStr("calm")])]) == Ok(map["emotion" := JStr("calm")]) by {
      assert [JArr([JStr("emotion"), JStr("calm")])][..0] == [];
    }
    assert UpdatePairs([JStr("ab")]) == Ok(map["a" := JStr("b")]) by {
      assert [JStr("ab")][..0] == [];
      assert ["ab"[0]] == "a" && ["ab"[1]] == "b";
    }
  }

  /** Splitting "前半。后半。" at "前半。" gives the shots "前半。" and "后半。". */
  lemma SplitTestCase()
    ensures var shots := [Shot(0, Mixed, "前半。后半。", None)];
      var op := JObj(map["op" := JStr("split"), "idx" := JInt(0), "at" := JStr("前半。")]);
      var r := ApplyPatchSpec(shots, JObj(map["ops" := JArr([op])]), DefaultConstraints);
      r.Ok? && |r.value| == 2 && r.value[0].text == "前半。" && r.value[1].text == "后半。"
  {
    var shots := [Shot(0, Mixed, "前半。后半。", None)];
    var op := JObj(map["op" := JStr("split"), "idx" := JInt(0), "at" := JStr("前半。")]);
    SplitTestDecode();
    var split := [Shot(0, Mixed, "前半。", None), Shot(1, Mixed, "后半。", None)];
    SplitTestOp();
    DecodedOp(shots, op, Split(0, "前半。"), DefaultConstraints);
    PatchOfOne(shots, op, DefaultConstraints, split);
    assert Renumber(split) == split;
  }

  lemma DecodedOp(shots: seq<Shot>, op: Json, o: Op, c: Constraints)
    requires DecodeOp(op) == Ok(o)
    ensures ApplyJsonOp(shots, op, c) == ApplyOp(shots, o, c)
  {
  }

  /** A patch of one op on shots without empty tag maps is that op's result, renumbered. */
  lemma PatchOfOne(base: seq<Shot>, op: Json, c: Constraints, r: seq<Shot>)
    requires forall i :: 0 <= i < |base| ==> base[i].tags != Some(map[])
    requires ApplyJsonOp(base, op, c) == Ok(r)
    ensures ApplyPatchSpec(base, JObj(map["ops" := JArr([op])]), c) == Ok(Renumber(r))
  {
    assert CopyShots(base) == base;
    assert ApplyOps(base, [op], c) == Ok(r);
  }

  lemma SplitTestDecode()
    ensures DecodeOp(JObj(map["op" := JStr("split"), "idx" := JInt(0), "at" := JStr("前半。")])) == Ok(Split(0, "前半。"))
  {
  }

  lemma SplitTestOp()
    ensures SplitOp([Shot(0, Mixed, "前半。后半。", None)], 0, "前半。")
      == Ok([Shot(0, Mixed, "前半。", None), Shot(1, Mixed, "后半。", None)])
  {
    var t := "前半。后半。";
    var shots := [Shot(0, Mixed, t, None)];
    FindFirstAt(shots, 0, 0);
    assert OccursAt(t, "前半。", 0);
    assert Find(t, "前半。") == 0;
    assert t[..3] == "前半。" && t[3..] == "后半。";
    assert !IsSpace(t[0]) && !IsSpace(t[3]);
    SplitOkValue(shots, 0, "前半。", 0, 0);
    assert shots[..0] + [Shot(0, Mixed, "前半。", None), Shot(1, Mixed, "后半。", None)] + shots[1..]
      == [Shot(0, Mixed, "前半。", None), Shot(1, Mixed, "后半。", None)];
  }
}
