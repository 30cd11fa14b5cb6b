/** tlm/components/scores/self_reflection_score_computation.py: the
    self-reflection score of every reference answer and the per-field
    composite of the reflections' metadata. */
module SelfReflectionScoreComputation {
  import opened Wrappers
  import opened Types
  import opened Completions
  import opened MathUtils
  import opened SelfReflectionScoring
  import opened PerField
  import opened Components
  import opened Stages

  /** Reading `.per_field_metadata` on a `CompletionFailure` raises. */
  const NoMetadata: string := "AttributeError: 'CompletionFailure' object has no attribute 'per_field_metadata'"

  /** The per-field metadata of the completions that have some, in flat
      order; a failure anywhere raises. */
  function ReflectionMetadata(flat: seq<Outcome>): Result<seq<map<string, FieldMetadata>>>
  {
    if flat == [] then Ok([])
    else match flat[0]
      case Failure(_) => Err(NoMetadata)
      case Success(c) =>
        var rest :- ReflectionMetadata(flat[1..]);
        Ok(if c.perFieldMetadata.Some? then [c.perFieldMetadata.value] + rest else rest)
  }

  /** The metadata list exists exactly when every reflection succeeded; its
      entries are the metadata of reflections that carry some, so there are
      no more entries than reflections. */
  lemma {:induction false} ReflectionMetadataSpec(flat: seq<Outcome>)
    ensures ReflectionMetadata(flat).Ok? <==> forall k :: 0 <= k < |flat| ==> flat[k].Success?
    ensures ReflectionMetadata(flat).Ok? ==> |ReflectionMetadata(flat).value| <= |flat|
    ensures ReflectionMetadata(flat).Ok? ==> forall j :: 0 <= j < |ReflectionMetadata(flat).value| ==>
      exists k :: 0 <= k < |flat| && flat[k].completion.perFieldMetadata == Some(ReflectionMetadata(flat).value[j])
  {
    if flat != [] {
      var tail := flat[1..];
      ReflectionMetadataSpec(tail);
      assert forall k :: 1 <= k < |flat| ==> flat[k] == tail[k - 1];
      if ReflectionMetadata(flat).Ok? {
        var ms := ReflectionMetadata(flat).value;
        var rest := ReflectionMetadata(tail).value;
        forall j | 0 <= j < |ms|
          ensures exists k :: 0 <= k < |flat| && flat[k].completion.perFieldMetadata == Some(ms[j])
        {
          if flat[0].completion.perFieldMetadata.Some? && j == 0 {
            assert flat[0].completion.perFieldMetadata == Some(ms[0]);
          } else {
            var jr := if flat[0].completion.perFieldMetadata.Some? then j - 1 else j;
            assert ms[j] == rest[jr];
            var k :| 0 <= k < |tail| && tail[k].completion.perFieldMetadata == Some(rest[jr]);
            assert flat[k + 1] == tail[k];
          }
        }
      }
    }
  }

  /** When every reflection carries metadata, the list is theirs, position
      by position. */
  lemma {:induction false} ReflectionMetadataAll(flat: seq<Outcome>)
    requires forall k :: 0 <= k < |flat| ==> flat[k].Success? && flat[k].completion.perFieldMetadata.Some?
    ensures ReflectionMetadata(flat).Ok? && |ReflectionMetadata(flat).value| == |flat|
    ensures forall k :: 0 <= k < |flat| ==> Some(ReflectionMetadata(flat).value[k]) == flat[k].completion.perFieldMetadata
  {
    if flat != [] {
      var tail := flat[1..];
      assert forall k :: 1 <= k < |flat| ==> flat[k] == tail[k - 1];
      ReflectionMetadataAll(tail);
      var ms := ReflectionMetadata(flat).value;
      assert ms == [flat[0].completion.perFieldMetadata.value] + ReflectionMetadata(tail).value;
      assert forall k :: 1 <= k < |flat| ==> ms[k] == ReflectionMetadata(tail).value[k - 1];
    }
  }

  /** execute: the nested reflections are flattened answer-major, scored
      (`self_reflection_scores` is written), and the metadata of the
      reflections that carry some is combined per field
      (`self_reflection_metadata_per_field` is written). */
  function Execute(parseFailureScore: real, results: map<string, Value>): Result<seq<(string, Value)>>
  {
    var refs :- JsonsAt(results, "reference_answers");
    var nested :- NestedAt(results, "self_reflection_completions");
    var flat := Flatten(nested);
    var scores :- SelfReflectionScores(|refs|, flat, parseFailureScore);
    var metadata :- ReflectionMetadata(flat);
    Ok([("self_reflection_scores", VScores(scores)),
        ("self_reflection_metadata_per_field", VFieldMetadata(FieldComposites(metadata)))])
  }

  /** When every reflection succeeded and the reflections split evenly over
      the reference answers, the stage writes exactly the two keys: one
      score per reference answer, each NaN or within [0,1] when the
      reflections' probabilities are, and the per-field composite of the
      metadata, whose fields are those named by some reflection. A failed
      reflection makes the stage raise. */
  lemma ExecuteSpec(parseFailureScore: real, results: map<string, Value>)
    requires 0.0 <= parseFailureScore <= 1.0
    requires "self_reflection_completions" in results && results["self_reflection_completions"].VNested?
    requires "reference_answers" in results && results["reference_answers"].VJsons?
    ensures var flat := Flatten(results["self_reflection_completions"].rows);
      (exists k :: 0 <= k < |flat| && flat[k].Failure?) ==> Execute(parseFailureScore, results).Err?
    ensures var flat := Flatten(results["self_reflection_completions"].rows);
      var n := |results["reference_answers"].items|;
      (forall k :: 0 <= k < |flat| ==> flat[k].Success? && OutcomeInUnit(flat[k])) && n > 0 && |flat| % n == 0 ==>
      var r := Execute(parseFailureScore, results);
      r.Ok?
      && WrittenKeys(r.value) == ["self_reflection_scores", "self_reflection_metadata_per_field"]
      && r.value[0].1.VScores? && |r.value[0].1.scores| == n
      && (forall i :: 0 <= i < n && r.value[0].1.scores[i].Some? ==> 0.0 <= r.value[0].1.scores[i].value <= 1.0)
      && r.value[1].1.VFieldMetadata?
      && r.value[1].1.fields.Keys == Names(ReflectionMetadata(flat).value)
  {
    var flat := Flatten(results["self_reflection_completions"].rows);
    var n := |results["reference_answers"].items|;
    ReflectionMetadataSpec(flat);
    if forall k :: 0 <= k < |flat| ==> flat[k].Success? && OutcomeInUnit(flat[k]) {
      SelfReflectionScoresSpec(n, flat, parseFailureScore);
    }
    if ReflectionMetadata(flat).Ok? {
      FieldCompositesKeys(ReflectionMetadata(flat).value);
    }
    var r := Execute(parseFailureScore, results);
    if r.Ok? {
      assert WrittenKeys(r.value) == ["self_reflection_scores", "self_reflection_metadata_per_field"];
    }
  }

  /** With one reference answer, or one reflection template per answer,
      the score written for answer i is the NaN-safe mean of answer i's own
      reflections. */
  lemma ExecuteAligned(parseFailureScore: real, results: map<string, Value>, templates: nat)
    requires "self_reflection_completions" in results && results["self_reflection_completions"].VNested?
    requires "reference_answers" in results && results["reference_answers"].VJsons?
    requires var nested := results["self_reflection_completions"].rows;
      |nested| == |results["reference_answers"].items| > 0 && IsMatrix(nested, templates)
      && (|nested| == 1 || templates == 1)
    requires var flat := Flatten(results["self_reflection_completions"].rows);
      forall k :: 0 <= k < |flat| ==> flat[k].Success?
    ensures Execute(parseFailureScore, results).Ok?
    ensures Execute(parseFailureScore, results).value[0]
      == ("self_reflection_scores", VScores(IntendedScores(results["self_reflection_completions"].rows, parseFailureScore)))
  {
    var nested := results["self_reflection_completions"].rows;
    SelfReflectionAligned(nested, templates, parseFailureScore);
    ReflectionMetadataSpec(Flatten(nested));
  }
}
