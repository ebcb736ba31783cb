/**
 * The chapter pack's manifest (src/novel2comic/core/manifest.py): the record of
 * which pipeline stage a chapter has reached, which stages are done, which
 * failed and the last error.  Its `status` dictionary is updated in place; a
 * key the dictionary may lack (a manifest loaded from a file need not have one)
 * is an `Option` field here.
 */
module Manifest {
  import opened Results

  /** `STAGES`, in pipeline order. */
  const Stages: seq<string> := ["empty", "ingested", "segmented", "planned", "tts_done",
                                "aligned", "images_done", "rendered", "exported"]

  const SchemaVersion: string := "chapterpack.v0.1"

  /** `key` appended to `keys` unless it is already there: what `mark_done` and `mark_failed` do to their list. */
  function AddOnce(keys: seq<string>, key: string): (r: seq<string>)
    ensures key in r
    ensures forall k :: k in r <==> k in keys || k == key
  {
    if key in keys then keys else keys + [key]
  }

  /** A list of stage marks without repetitions. */
  predicate NoDup(keys: seq<string>) {
    forall i, j :: 0 <= i < j < |keys| ==> keys[i] != keys[j]
  }

  /** `status.setdefault(name, [])`, read only. */
  function ListOrEmpty(keys: Option<seq<string>>): seq<string> {
    if keys.Some? then keys.value else []
  }

  class Manifest {
    var schemaVersion: string
    var meta: map<string, string>
    /** `status["stage"]`, `status["done"]`, `status["failed"]`, `status["last_error"]`. */
    var stage: Option<string>
    var done: Option<seq<string>>
    var failed: Option<seq<string>>
    var lastError: Option<string>
    var durations: map<string, int>
    var providers: map<string, map<string, string>>
    var artifacts: map<string, string>
    var shotsIndex: map<string, string>

    /** `new_manifest`: a fresh manifest at stage "empty" with nothing done, nothing failed and no error. */
    constructor (novelId: string, chapterId: string)
      ensures schemaVersion == SchemaVersion
      ensures meta == map["project_id" := "novel2comic", "novel_id" := novelId,
                          "chapter_id" := chapterId, "created_at" := ""]
      ensures stage == Some("empty") && done == Some([]) && failed == Some([]) && lastError == Some("")
      ensures durations == map["audio_ms" := 0, "video_ms" := 0, "num_shots" := 0]
      ensures providers == map["llm" := map[], "tts" := map["provider" := "qwen-tts"],
                               "image" := map["provider" := "comfyui"], "align" := map["provider" := "whisperx"]]
      ensures artifacts == map["shotscript" := "shotscript.json", "audio_chapter_wav" := "audio/chapter.wav",
                               "subtitles_ass" := "subtitles/chapter.ass", "subtitles_srt" := "subtitles/chapter.srt",
                               "draft_dir" := "draft/jianying/", "final_mp4" := "video/final.mp4"]
      ensures shotsIndex == map[]
      ensures Stage() == "empty" && Marked()
    {
      schemaVersion := SchemaVersion;
      meta := map["project_id" := "novel2comic", "novel_id" := novelId,
                  "chapter_id" := chapterId, "created_at" := ""];
      stage := Some("empty");
      done := Some([]);
      failed := Some([]);
      lastError := Some("");
      durations := map["audio_ms" := 0, "video_ms" := 0, "num_shots" := 0];
      providers := map["llm" := map[], "tts" := map["provider" := "qwen-tts"],
                       "image" := map["provider" := "comfyui"], "align" := map["provider" := "whisperx"]];
      artifacts := map["shotscript" := "shotscript.json", "audio_chapter_wav" := "audio/chapter.wav",
                       "subtitles_ass" := "subtitles/chapter.ass", "subtitles_srt" := "subtitles/chapter.srt",
                       "draft_dir" := "draft/jianying/", "final_mp4" := "video/final.mp4"];
      shotsIndex := map[];
    }

    /** The `stage` property: the recorded stage, "empty" when none is recorded. */
    function Stage(): (s: string)
      reads this
      ensures stage.None? ==> s == "empty"
      ensures stage.Some? ==> s == stage.value
    {
      if stage.Some? then stage.value else "empty"
    }

    /** The marks of the stages done so far. */
    function Done(): seq<string>
      reads this
    {
      ListOrEmpty(done)
    }

    /** The marks of the stages that failed so far. */
    function Failed(): seq<string>
      reads this
    {
      ListOrEmpty(failed)
    }

    /** Neither list of marks holds a key twice. */
    predicate Marked()
      reads this
    {
      NoDup(Done()) && NoDup(Failed())
    }

    /** `set_stage`: a name outside `Stages` raises and changes nothing; any other is recorded and nothing else changes. */
    method SetStage(name: string) returns (r: Outcome)
      modifies this
      ensures name !in Stages ==> r == Fail("invalid stage: " + name) && unchanged(this)
      ensures name in Stages ==> r == Pass && stage == Some(name) && Stage() == name
      ensures name in Stages ==> done == old(done) && failed == old(failed) && lastError == old(lastError)
      ensures schemaVersion == old(schemaVersion) && meta == old(meta) && durations == old(durations)
      ensures providers == old(providers) && artifacts == old(artifacts) && shotsIndex == old(shotsIndex)
    {
      if name !in Stages {
        return Fail("invalid stage: " + name);
      }
      stage := Some(name);
      r := Pass;
    }

    /** `mark_done`: the key joins the done list once, at its end, and nothing else changes. */
    method MarkDone(key: string)
      modifies this
      ensures done == Some(AddOnce(old(Done()), key))
      ensures old(Marked()) ==> Marked()
      ensures stage == old(stage) && failed == old(failed) && lastError == old(lastError)
      ensures schemaVersion == old(schemaVersion) && meta == old(meta) && durations == old(durations)
      ensures providers == old(providers) && artifacts == old(artifacts) && shotsIndex == old(shotsIndex)
    {
      var marks := Done();
      if NoDup(marks) {
        AddOnceNoDup(marks, key);
      }
      done := Some(marks);
      if key in marks {
        return;
      }
      done := Some(marks + [key]);
    }

    /** `mark_failed`: the key joins the failed list once, the error is always recorded, and nothing else changes. */
    method MarkFailed(key: string, err: string)
      modifies this
      ensures failed == Some(AddOnce(old(Failed()), key)) && lastError == Some(err)
      ensures old(Marked()) ==> Marked()
      ensures stage == old(stage) && done == old(done)
      ensures schemaVersion == old(schemaVersion) && meta == old(meta) && durations == old(durations)
      ensures providers == old(providers) && artifacts == old(artifacts) && shotsIndex == old(shotsIndex)
    {
      var marks := Failed();
      if NoDup(marks) {
        AddOnceNoDup(marks, key);
      }
      failed := Some(marks);
      if key !in marks {
        failed := Some(marks + [key]);
      }
      lastError := Some(err);
    }
  }

  // ---------------------------------------------------------------- properties

  /** Marking a key that is already there changes nothing. */
  lemma AddOnceKnown(keys: seq<string>, key: string)
    requires key in keys
    ensures AddOnce(keys, key) == keys
  {
  }

  /** A new key goes at the end and the earlier keys keep their order. */
  lemma AddOnceNew(keys: seq<string>, key: string)
    requires key !in keys
    ensures AddOnce(keys, key) == keys + [key]
    ensures |AddOnce(keys, key)| == |keys| + 1 && AddOnce(keys, key)[|keys|] == key
  {
  }

  /** Marking twice is marking once. */
  lemma AddOnceIdempotent(keys: seq<string>, key: string)
    ensures AddOnce(AddOnce(keys, key), key) == AddOnce(keys, key)
  {
  }

  /** Marking never removes or reorders a mark: the old list is a prefix of the new. */
  lemma AddOncePrefix(keys: seq<string>, key: string)
    ensures |keys| <= |AddOnce(keys, key)| <= |keys| + 1 && AddOnce(keys, key)[..|keys|] == keys
  {
  }

  /** Marking keeps a list free of repetitions. */
  lemma AddOnceNoDup(keys: seq<string>, key: string)
    requires NoDup(keys)
    ensures NoDup(AddOnce(keys, key))
  {
    if key !in keys {
      var r := keys + [key];
      forall i, j | 0 <= i < j < |r| ensures r[i] != r[j] {
        if j == |keys| {
          assert r[i] == keys[i];
        } else {
          assert r[i] == keys[i] && r[j] == keys[j];
        }
      }
    }
  }

  /** Any sequence of marks made from the empty list has no repetitions and holds exactly the keys marked. */
  lemma {:induction false} MarkAllNoDup(keys: seq<string>)
    ensures NoDup(MarkAll([], keys))
    ensures forall k :: k in MarkAll([], keys) <==> k in keys
  {
    if keys != [] {
      var init := keys[..|keys| - 1];
      MarkAllNoDup(init);
      AddOnceNoDup(MarkAll([], init), keys[|keys| - 1]);
      assert keys == init + [keys[|keys| - 1]];
    }
  }

  /** The list after marking each of `keys` in turn. */
  function MarkAll(start: seq<string>, keys: seq<string>): seq<string>
    decreases |keys|
  {
    if keys == [] then start else AddOnce(MarkAll(start, keys[..|keys| - 1]), keys[|keys| - 1])
  }

  /** The stage names are distinct, and the first is the default stage. */
  lemma StagesShape()
    ensures NoDup(Stages) && Stages[0] == "empty" && |Stages| == 9
  {
  }
}
