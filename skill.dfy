/**
 * The refinement skill (src/novel2comic/skills/refine_shot_split/skill.py): ask
 * the language model for a patch, validate it, apply it, check the two hard
 * constraints, and fall back to the baseline on any failure.
 *
 * The model is an oracle: a total function from the request to either a JSON
 * reply or an error (a raised exception).  The prompt text itself is built from
 * the request by code that is not part of this model.
 */
module Skill {
  import opened Results
  import opened JsonValue
  import opened Shots
  import opened Validator
  import opened Applier

  /** What the prompt is built from: the chapter id, the baseline shots and the local constraints. */
  datatype Request = Request(chapterId: string, base: seq<Shot>, c: Constraints)

  /** `RefineResult`: the shots to use, the accepted patch, whether the baseline was kept, and why. */
  datatype RefineResult = RefineResult(refinedShots: seq<Shot>, patch: Option<Json>, usedFallback: bool, error: string)

  /** Short chapters relax the window: a baseline below `min_shots` (or above `max_shots`) is itself acceptable. */
  function EffectiveMin(c: Constraints, n: nat): int {
    if c.minShots <= n then c.minShots else n
  }

  function EffectiveMax(c: Constraints, n: nat): int {
    if c.maxShots >= n then c.maxShots else n
  }

  /** A failed check as an exception. */
  function Check(o: Outcome): Result<()> {
    if o.Fail? then Err(o.msg) else Ok(())
  }

  /** The body of the `try` after the model has answered: the checks in order, then the patch, then the hard constraints. */
  function Accept(patch: Json, base: seq<Shot>, c: Constraints): Result<seq<Shot>> {
    var _ :- Check(ValidatePatchShape(patch));
    var _ :- Check(ValidateOpsSyntax(patch.fields["ops"].items));
    var _ :- Check(ValidateConstraints(patch.fields["constraints"], c));
    var refined :- ApplyPatchSpec(base, patch, c);
    var _ :- Check(ValidateTextConservation(base, refined));
    var _ :- Check(ValidateCountRange(refined, c, Some(EffectiveMin(c, |base|)), Some(EffectiveMax(c, |base|))));
    Ok(refined)
  }

  /** `RefineShotSplitSkill.run`. */
  function Run(llm: Request -> Result<Json>, chapterId: string, base: seq<Shot>, c: Constraints): (r: RefineResult)
    ensures r.usedFallback <==> r.patch.None?
    ensures r.usedFallback ==> r.refinedShots == base
    ensures !r.usedFallback ==> r.error == "" && llm(Request(chapterId, base, c)) == Ok(r.patch.value)
  {
    match llm(Request(chapterId, base, c))
    case Err(e) => RefineResult(base, None, true, e)
    case Ok(patch) =>
      match Accept(patch, base, c)
      case Ok(refined) => RefineResult(refined, Some(patch), false, "")
      case Err(e) => RefineResult(base, None, true, e)
  }

  // ---------------------------------------------------------------- properties

  /** The baseline's own count always lies in the effective window. */
  lemma BaselineInWindow(c: Constraints, n: nat)
    ensures EffectiveMin(c, n) <= n <= EffectiveMax(c, n)
    ensures EffectiveMin(c, n) <= c.minShots && EffectiveMax(c, n) >= c.maxShots
  {
  }

  /**
   * A patch is accepted exactly when it has the required shape, its ops are well
   * formed, its constraints block has the right keys and types, it applies, and
   * the result has a shot count in the effective window; conservation never
   * rejects a patch that applies.
   */
  lemma AcceptIff(patch: Json, base: seq<Shot>, c: Constraints)
    ensures Accept(patch, base, c).Ok? <==>
      && ValidatePatchShape(patch).Pass?
      && ValidateOpsSyntax(patch.fields["ops"].items).Pass?
      && ValidateConstraints(patch.fields["constraints"], c).Pass?
      && ApplyPatchSpec(base, patch, c).Ok?
      && EffectiveMin(c, |base|) <= |ApplyPatchSpec(base, patch, c).value| <= EffectiveMax(c, |base|)
  {
    if && ValidatePatchShape(patch).Pass?
       && ValidateOpsSyntax(patch.fields["ops"].items).Pass?
       && ValidateConstraints(patch.fields["constraints"], c).Pass?
       && ApplyPatchSpec(base, patch, c).Ok?
    {
      ApplyPatchConserves(base, patch, c);
    }
  }

  /**
   * An accepted refinement keeps the baseline's text modulo whitespace, is
   * numbered 0..N-1 in order, and has a count in the effective window, which
   * contains both the configured window and the baseline's count.
   */
  lemma RunSuccess(llm: Request -> Result<Json>, chapterId: string, base: seq<Shot>, c: Constraints)
    requires !Run(llm, chapterId, base, c).usedFallback
    ensures var r := Run(llm, chapterId, base, c).refinedShots;
      && NormalizeText(ConcatText(r)) == NormalizeText(ConcatText(base))
      && NumberedInOrder(r)
      && EffectiveMin(c, |base|) <= |r| <= EffectiveMax(c, |base|)
  {
    var patch := llm(Request(chapterId, base, c)).value;
    AcceptIff(patch, base, c);
    ApplyPatchConserves(base, patch, c);
  }

  /**
   * The refinement falls back exactly when the model fails or its patch is not
   * accepted; the error is then the first failure's message.
   */
  lemma RunFallback(llm: Request -> Result<Json>, chapterId: string, base: seq<Shot>, c: Constraints)
    ensures var reply := llm(Request(chapterId, base, c));
      var r := Run(llm, chapterId, base, c);
      && (r.usedFallback <==> reply.Err? || Accept(reply.value, base, c).Err?)
      && (reply.Err? ==> r.error == reply.msg)
      && (reply.Ok? && Accept(reply.value, base, c).Err? ==> r.error == Accept(reply.value, base, c).msg)
  {
  }

  /** The checks run in order: a patch of the wrong shape is reported as such, whatever else is wrong with it. */
  lemma ShapeCheckedFirst(patch: Json, base: seq<Shot>, c: Constraints)
    requires ValidatePatchShape(patch).Fail?
    ensures Accept(patch, base, c) == Err(ValidatePatchShape(patch).msg)
  {
  }

  /** Ops are checked before constraints and before any op is applied. */
  lemma OpsCheckedBeforeApply(patch: Json, base: seq<Shot>, c: Constraints)
    requires ValidatePatchShape(patch).Pass? && ValidateOpsSyntax(patch.fields["ops"].items).Fail?
    ensures Accept(patch, base, c) == Err(ValidateOpsSyntax(patch.fields["ops"].items).msg)
  {
  }

  /**
   * The patch's own constraint values are not trusted: replacing its constraints
   * block by another well-typed one changes nothing in the outcome.
   */
  lemma PatchConstraintsIgnored(patch: Json, block: Json, base: seq<Shot>, c: Constraints)
    requires patch.JObj? && "constraints" in patch.fields
    requires ValidateConstraints(patch.fields["constraints"], c).Pass? && ValidateConstraints(block, c).Pass?
    ensures Accept(JObj(patch.fields["constraints" := block]), base, c) == Accept(patch, base, c)
  {
    var other := JObj(patch.fields["constraints" := block]);
    assert forall key :: key != "constraints" ==>
      (key in other.fields <==> key in patch.fields) && (key in patch.fields ==> other.fields[key] == patch.fields[key]);
    assert PatchOps(other) == PatchOps(patch);
    assert ApplyPatchSpec(base, other, c) == ApplyPatchSpec(base, patch, c);
    assert ValidatePatchShape(other) == ValidatePatchShape(patch);
  }

  /**
   * A well-formed patch without ops is accepted and hands back the baseline,
   * provided the baseline is numbered in order and has no empty tag map.
   */
  lemma EmptyPatchAccepted(base: seq<Shot>, c: Constraints, chapterId: Json, block: Json)
    requires NumberedInOrder(base) && forall i :: 0 <= i < |base| ==> base[i].tags != Some(map[])
    requires ValidateConstraints(block, c).Pass?
    ensures var patch := JObj(map["schema_version" := JStr(SchemaVersion), "chapter_id" := chapterId,
                                  "constraints" := block, "ops" := JArr([])]);
      Accept(patch, base, c) == Ok(base)
  {
    var patch := JObj(map["schema_version" := JStr(SchemaVersion), "chapter_id" := chapterId,
                          "constraints" := block, "ops" := JArr([])]);
    assert Renumber(CopyShots(base)) == base;
    assert ApplyPatchSpec(base, patch, c) == Ok(base);
    BaselineInWindow(c, |base|);
    assert ValidateTextConservation(base, base).Pass?;
  }
}
