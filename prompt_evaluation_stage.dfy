/** tlm/components/scores/prompt_evaluation_score_extraction.py: the prompt
    evaluation score of every reference answer. */
module PromptEvaluationScoreExtraction {
  import opened Wrappers
  import opened Completions
  import opened MathUtils
  import opened PromptEvaluation
  import opened Components
  import opened Stages

  /** The prompt-evaluation completions; `get` gives None for an absent
      key, and `_extract_prompt_evaluation_scores` treats a falsy list as
      empty. */
  function EvaluationOutcomes(results: map<string, Value>): (r: Result<seq<Outcome>>)
    ensures r.Ok? <==> ("prompt_evaluation_completions" !in results
      || results["prompt_evaluation_completions"].VNone? || results["prompt_evaluation_completions"].VOutcomes?)
  {
    var key := "prompt_evaluation_completions";
    if key !in results || results[key].VNone? then Ok([]) else OutcomesAt(results, key)
  }

  /** execute: writes `prompt_evaluation_scores`. */
  function Execute(results: map<string, Value>): Result<seq<(string, Value)>>
  {
    var outcomes :- EvaluationOutcomes(results);
    var refs :- JsonsAt(results, "reference_answers");
    Ok([("prompt_evaluation_scores", VScores(PromptEvaluationScores(|refs|, outcomes)))])
  }

  /** Without reference answers the stage raises; otherwise it writes one
      key holding one score per reference answer, each equal to the
      NaN-safe mean of the per-completion scores, and each NaN when no
      completion was given. */
  lemma ExecuteSpec(results: map<string, Value>)
    ensures Execute(results).Ok? <==>
      EvaluationOutcomes(results).Ok? && "reference_answers" in results && results["reference_answers"].VJsons?
    ensures Execute(results).Ok? ==>
      var refs := results["reference_answers"].items;
      var outcomes := EvaluationOutcomes(results).value;
      var w := Execute(results).value;
      WrittenKeys(w) == ["prompt_evaluation_scores"] && w[0].1.VScores?
      && |w[0].1.scores| == |refs|
      && (forall i :: 0 <= i < |refs| ==> w[0].1.scores[i] == RowMean(ExtractPromptEvaluationScores(outcomes)))
      && (outcomes == [] ==> forall i :: 0 <= i < |refs| ==> w[0].1.scores[i].None?)
  {
    if Execute(results).Ok? {
      var refs := results["reference_answers"].items;
      var outcomes := EvaluationOutcomes(results).value;
      var w := Execute(results).value;
      assert WrittenKeys(w) == ["prompt_evaluation_scores"];
      assert ExtractPromptEvaluationScores([]) == [];
      assert ValidValues([]) == [];
    }
  }
}
