/** tlm/utils/scoring/llm_consistency_scoring_utils.py: an LLM judge rates
    each (reference, comparison) pair; the judge is an oracle. */
module LlmConsistency {
  import opened Wrappers
  import opened Json
  import opened Completions
  import opened MathUtils

  /** The two judge prompt templates. */
  datatype JudgeTemplate = CodeConsistency | StatementConsistency

  /** The judge model: one call per template and pair of inputs. */
  type Judge = (JudgeTemplate, Json, Json) -> Call

  function Min(a: nat, b: nat): nat {
    if a <= b then a else b
  }

  /** `zip(refs, comps)`: pairs up to the shorter list. */
  function Zip(refs: seq<Json>, comps: seq<Json>): (pairs: seq<(Json, Json)>)
    ensures |pairs| == Min(|refs|, |comps|)
    ensures forall i :: 0 <= i < |pairs| ==> pairs[i] == (refs[i], comps[i])
  {
    seq(Min(|refs|, |comps|), i requires 0 <= i < Min(|refs|, |comps|) => (refs[i], comps[i]))
  }

  /** The message of the first call that raised, if any. */
  function FirstRaised(calls: seq<Call>): (r: Option<string>)
    ensures r.None? <==> forall i :: 0 <= i < |calls| ==> calls[i].Returned?
  {
    if calls == [] then None
    else if calls[0].Raised? then Some(calls[0].message)
    else FirstRaised(calls[1..])
  }

  /** The judge's mapped score for a returned call; NaN for a failure or a
      completion without a numeric mapped score. */
  function JudgeScore(c: Call): Score
    requires c.Returned?
  {
    match c.outcome
    case Success(d) => MappedScoreOf(d)
    case Failure(_) => None
  }

  /** The judge requests, one per zipped pair. */
  function JudgeCalls(refs: seq<Json>, comps: seq<Json>, template: JudgeTemplate, judge: Judge): (calls: seq<Call>)
    ensures |calls| == Min(|refs|, |comps|)
    ensures forall i :: 0 <= i < |calls| ==> calls[i] == judge(template, refs[i], comps[i])
  {
    seq(Min(|refs|, |comps|), i requires 0 <= i < Min(|refs|, |comps|) => judge(template, refs[i], comps[i]))
  }

  /** The prefix of the error get_llm_consistency_scores raises. */
  const JudgeErrorPrefix: string := "LLMConsistencyInferenceError: Failed to get LLM consistency scores: "

  /** get_llm_consistency_scores. */
  function LlmConsistencyScores(refs: seq<Json>, comps: seq<Json>, template: JudgeTemplate, judge: Judge): (r: Result<seq<Score>>)
  {
    var calls := JudgeCalls(refs, comps, template, judge);
    match FirstRaised(calls)
    case Some(message) => Err(JudgeErrorPrefix + message)
    case None => Ok(seq(|calls|, i requires 0 <= i < |calls| => JudgeScore(calls[i])))
  }

  /** One judge request per zipped pair: the call fails exactly when one of
      those requests raised; otherwise there are min(|refs|, |comps|)
      scores, score i being the judge's verdict on pair i. */
  lemma LlmConsistencyScoresSpec(refs: seq<Json>, comps: seq<Json>, template: JudgeTemplate, judge: Judge)
    ensures var r := LlmConsistencyScores(refs, comps, template, judge);
      var pairs := Zip(refs, comps);
      (r.Ok? <==> forall i :: 0 <= i < |pairs| ==> judge(template, pairs[i].0, pairs[i].1).Returned?) &&
      (r.Ok? ==>
        |r.value| == |pairs| &&
        forall i :: 0 <= i < |pairs| ==> r.value[i] == JudgeScore(judge(template, pairs[i].0, pairs[i].1)))
  {
    var calls := JudgeCalls(refs, comps, template, judge);
    var pairs := Zip(refs, comps);
    assert forall i :: 0 <= i < |pairs| ==> calls[i] == judge(template, pairs[i].0, pairs[i].1);
  }
}
