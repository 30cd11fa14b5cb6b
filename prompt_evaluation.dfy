/** tlm/utils/scoring/prompt_evaluation_scoring_utils.py: one score per
    prompt-evaluation completion, and their NaN-safe mean repeated once per
    reference answer. */
module PromptEvaluation {
  import opened Wrappers
  import opened Completions
  import opened MathUtils
  import opened ParseUtils

  /** _get_prompt_evaluation_score. The walrus tests are Python truth
      tests, so an exact 0.0 confidence or mapped score falls through. */
  function PromptEvaluationScore(o: Outcome): Score
  {
    match o
    case Failure(_) => Some(0.0)
    case Success(c) =>
      var confidence := ChoiceTokenConfidence(c);
      if confidence.Some? && confidence.value != 0.0 then confidence
      else
        var mapped := MappedScoreOf(c);
        if mapped.Some? && mapped.value != 0.0 then mapped
        else None
  }

  /** A failure scores 0.0 (not NaN); a non-zero token confidence is used;
      a zero or missing confidence falls back to a non-zero mapped score;
      otherwise, including a 0.0 mapped score, the score is NaN. */
  lemma PromptEvaluationScoreCases(o: Outcome)
    ensures o.Failure? ==> PromptEvaluationScore(o) == Some(0.0)
    ensures o.Success? && ChoiceTokenConfidence(o.completion).Some? && ChoiceTokenConfidence(o.completion).value != 0.0
      ==> PromptEvaluationScore(o) == ChoiceTokenConfidence(o.completion)
    ensures o.Success? && ChoiceTokenConfidence(o.completion) in {None, Some(0.0)}
      && MappedScoreOf(o.completion).Some? && MappedScoreOf(o.completion).value != 0.0
      ==> PromptEvaluationScore(o) == MappedScoreOf(o.completion)
    ensures o.Success? && ChoiceTokenConfidence(o.completion) in {None, Some(0.0)}
      && MappedScoreOf(o.completion) in {None, Some(0.0)}
      ==> PromptEvaluationScore(o).None?
  {
  }

  /** A successful completion is never scored 0.0: a zero confidence or a
      zero mapped score is dropped rather than used. */
  lemma ZeroIsDropped(o: Outcome)
    requires o.Success?
    ensures PromptEvaluationScore(o) != Some(0.0)
  {
  }

  /** _extract_prompt_evaluation_scores: one score per completion, in
      order (an empty list gives an empty list). */
  function ExtractPromptEvaluationScores(outcomes: seq<Outcome>): (s: seq<Score>)
    ensures |s| == |outcomes|
    ensures forall i :: 0 <= i < |outcomes| ==> s[i] == PromptEvaluationScore(outcomes[i])
  {
    if outcomes == [] then []
    else seq(|outcomes|, i requires 0 <= i < |outcomes| => PromptEvaluationScore(outcomes[i]))
  }

  /** get_prompt_evaluation_scores: the mean of the non-NaN scores (NaN
      when there is none, as np.mean of an empty list), repeated once per
      reference answer. */
  function PromptEvaluationScores(referenceCount: nat, outcomes: seq<Outcome>): (r: seq<Score>)
    ensures |r| == referenceCount
  {
    var mean := RowMean(ExtractPromptEvaluationScores(outcomes));
    seq(referenceCount, _ => mean)
  }

  /** Every output entry is the same NaN-safe mean; it lies in [0,1] when
      the confidences and mapped scores do, and it is NaN exactly when no
      completion has a score. */
  lemma PromptEvaluationScoresSpec(referenceCount: nat, outcomes: seq<Outcome>)
    requires forall i :: 0 <= i < |outcomes| && outcomes[i].Success? ==>
      ProbsOk(outcomes[i].completion)
    ensures forall i :: 0 <= i < referenceCount ==>
      PromptEvaluationScores(referenceCount, outcomes)[i] == RowMean(ExtractPromptEvaluationScores(outcomes))
    ensures forall i :: 0 <= i < referenceCount && PromptEvaluationScores(referenceCount, outcomes)[i].Some? ==>
      0.0 <= PromptEvaluationScores(referenceCount, outcomes)[i].value <= 1.0
    ensures forall i :: 0 <= i < referenceCount ==>
      (PromptEvaluationScores(referenceCount, outcomes)[i].None? <==>
       forall k :: 0 <= k < |outcomes| ==> PromptEvaluationScore(outcomes[k]).None?)
  {
    var scores := ExtractPromptEvaluationScores(outcomes);
    forall k | 0 <= k < |outcomes|
      ensures scores[k].Some? ==> 0.0 <= scores[k].value <= 1.0
    {
      if outcomes[k].Success? {
        ChoiceTokenConfidenceInUnit(outcomes[k].completion);
      }
    }
    RowMeanBounds(scores, 0.0, 1.0);
    ValidValuesEmpty(scores);
  }

  /** Token probabilities and the mapped score are probabilities. */
  predicate ProbsOk(c: CompletionData) {
    (c.logprobs.Some? ==> forall i :: 0 <= i < |c.logprobs.value| ==> 0.0 <= c.logprobs.value[i].prob <= 1.0) &&
    (MappedScoreOf(c).Some? ==> 0.0 <= MappedScoreOf(c).value <= 1.0)
  }

  /** A row has no valid value exactly when every entry is NaN. */
  lemma {:induction false} ValidValuesEmpty(row: seq<Score>)
    ensures ValidValues(row) == [] <==> forall k :: 0 <= k < |row| ==> row[k].None?
  {
    if row != [] {
      ValidValuesEmpty(row[1..]);
      assert forall k :: 1 <= k < |row| ==> row[k] == row[1..][k - 1];
    }
  }
}
