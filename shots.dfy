/**
 * The shot unit shared by the baseline segmenter and the refinement step
 * (src/novel2comic/core/schemas/shot.py), and the refinement constraints
 * (src/novel2comic/skills/refine_shot_split/schema.py).
 */
module Shots {
  import opened Results
  import opened JsonValue

  /** The coarse classification of a shot; `scene_break` shots are strong boundaries. */
  datatype Kind = Narration | Dialogue | SceneBreak | Mixed

  /**
   * A shot: `idx` is its ordinal in the current sequence, `text` a verbatim piece
   * of the source, `tags` optional key/value annotations that carry no content.
   */
  datatype Shot = Shot(idx: int, kind: Kind, text: string, tags: Option<map<string, Json>>)

  /** The hard constraints of a refinement: a target shot-count window and the scene-break rule. */
  datatype Constraints = Constraints(minShots: int, maxShots: int, forbidCrossSceneBreak: bool)

  const DefaultConstraints: Constraints := Constraints(60, 120, true)

  /** Every shot's idx is its position: the numbering 0..N-1 in order. */
  predicate NumberedInOrder(shots: seq<Shot>) {
    forall i :: 0 <= i < |shots| ==> shots[i].idx == i
  }
}
