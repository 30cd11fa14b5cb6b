/** tlm/components/scores/consistency_score_computation.py: the consistency
    and indicator scores of the reference answers against the observed
    consistency answers. */
module ConsistencyScoreComputation {
  import opened Wrappers
  import opened Json
  import opened Types
  import opened Completions
  import opened MathUtils
  import opened Indicator
  import opened Consistency
  import opened Components
  import opened Stages

  /** The constructor's arguments. */
  datatype Config = Config(measure: SimilarityMeasure, structured: bool, constrainOutputs: Option<seq<string>>)

  /** The four keys, in the order they are written. */
  const ScoreKeys: seq<string> := ["consistency_scores", "indicator_scores", "consistency_scores_flat", "indicator_scores_flat"]

  /** compute_consistency_scores_classification as a value: the
      classification scores when some successful comparison has a
      perplexity, else the indicator scores. The scorer reads
      `comparison_answers[idx]` for every completion index, which raises
      when there are fewer answers than completions. */
  function ClassificationConsistency(refs: seq<Json>, comps: seq<Json>, outcomes: seq<Outcome>,
                                     labels: seq<string>): Result<ScoreArrays>
  {
    if !PerplexityAvailable(outcomes) then Ok(ComputeIndicatorScores(refs, comps))
    else if |comps| < |outcomes| then Err("IndexError: list index out of range")
    else Ok(ClassificationScores(refs, comps[..|outcomes|], outcomes, labels))
  }

  /** The consistency and indicator arrays when there is at least one
      consistency answer. Classification does not use indicator scores: they
      are None arrays of length n and n * m. */
  function Arrays(cfg: Config, o: Oracles, results: map<string, Value>, comps: seq<Json>): Result<(ScoreArrays, ScoreArrays)>
    requires forall v :: IsNorm(v, o.norm(v))
  {
    var refs :- JsonsAt(results, "reference_answers");
    match cfg.constrainOutputs
    case Some(labels) =>
      var outcomes :- OutcomesAt(results, "consistency_completions");
      var consistency :- ClassificationConsistency(refs, comps, outcomes, labels);
      Ok((consistency, ScoreArrays(Repeat(None, |refs|), Repeat(None, |refs| * |comps|))))
    case None =>
      var consistency :- ComputeScoresQa(refs, comps, cfg.measure, cfg.structured, o);
      Ok((consistency, ComputeIndicatorScores(refs, comps)))
  }

  /** execute: empty arrays without consistency answers, otherwise the
      arrays above; the four keys are written in order. */
  function Execute(cfg: Config, o: Oracles, results: map<string, Value>): Result<seq<(string, Value)>>
    requires forall v :: IsNorm(v, o.norm(v))
  {
    var comps :- JsonsAt(results, "consistency_answers");
    var arrays :- if |comps| == 0 then Ok((ScoreArrays([], []), ScoreArrays([], []))) else Arrays(cfg, o, results, comps);
    Ok([(ScoreKeys[0], VScores(arrays.0.means)), (ScoreKeys[1], VScores(arrays.1.means)),
        (ScoreKeys[2], VScores(arrays.0.flat)), (ScoreKeys[3], VScores(arrays.1.flat))])
  }

  /** Whenever the stage succeeds it writes exactly the four keys. With no
      consistency answers it succeeds whatever else the context holds, and
      all four arrays are empty. */
  lemma ExecuteKeys(cfg: Config, o: Oracles, results: map<string, Value>)
    requires forall v :: IsNorm(v, o.norm(v))
    ensures Execute(cfg, o, results).Ok? ==> WrittenKeys(Execute(cfg, o, results).value) == ScoreKeys
    ensures "consistency_answers" in results && results["consistency_answers"] == VJsons([]) ==>
      Execute(cfg, o, results) == Ok([(ScoreKeys[0], VScores([])), (ScoreKeys[1], VScores([])),
                                      (ScoreKeys[2], VScores([])), (ScoreKeys[3], VScores([]))])
  {
    if Execute(cfg, o, results).Ok? {
      assert WrittenKeys(Execute(cfg, o, results).value) == ScoreKeys;
    }
  }

  /** With constrained outputs the classification scorer decides the
      consistency scores (classification cells when a comparison carries a
      perplexity, indicator scores otherwise), the means are one per
      reference answer and NaN or within [0,1] when perplexities are, and
      every indicator entry is None: n of them and n * m flat. */
  lemma ExecuteClassification(cfg: Config, o: Oracles, results: map<string, Value>)
    requires forall v :: IsNorm(v, o.norm(v))
    requires cfg.constrainOutputs.Some?
    requires "consistency_answers" in results && results["consistency_answers"].VJsons?
    requires "reference_answers" in results && results["reference_answers"].VJsons?
    requires "consistency_completions" in results && results["consistency_completions"].VOutcomes?
    requires var comps := results["consistency_answers"].items;
      |comps| > 0 && |comps| == |results["consistency_completions"].outcomes|
    requires PerplexitiesInUnit(results["consistency_completions"].outcomes)
    ensures var r := Execute(cfg, o, results);
      var refs := results["reference_answers"].items;
      var comps := results["consistency_answers"].items;
      var outcomes := results["consistency_completions"].outcomes;
      var labels := cfg.constrainOutputs.value;
      r.Ok?
      && r.value[0].1.scores == (if PerplexityAvailable(outcomes) then ClassificationScores(refs, comps, outcomes, labels)
                                 else ComputeIndicatorScores(refs, comps)).means
      && |r.value[0].1.scores| == |refs|
      && (forall i :: 0 <= i < |refs| && r.value[0].1.scores[i].Some? ==> 0.0 <= r.value[0].1.scores[i].value <= 1.0)
      && |r.value[1].1.scores| == |refs| && |r.value[3].1.scores| == |refs| * |comps|
      && (forall i :: 0 <= i < |r.value[1].1.scores| ==> r.value[1].1.scores[i].None?)
      && (forall i :: 0 <= i < |r.value[3].1.scores| ==> r.value[3].1.scores[i].None?)
  {
    var refs := results["reference_answers"].items;
    var comps := results["consistency_answers"].items;
    var outcomes := results["consistency_completions"].outcomes;
    var labels := cfg.constrainOutputs.value;
    assert comps[..|outcomes|] == comps;
    if PerplexityAvailable(outcomes) {
      ClassificationMeansInUnit(refs, comps, outcomes, labels);
    } else {
      IndicatorMeansInUnit(refs, comps);
    }
  }

  /** With at least one comparison answer the indicator means are one per
      reference answer and each lies in [0,1]. */
  lemma IndicatorMeansInUnit(refs: seq<Json>, comps: seq<Json>)
    requires |comps| > 0
    ensures |ComputeIndicatorScores(refs, comps).means| == |refs|
    ensures forall i :: 0 <= i < |refs| ==>
      ComputeIndicatorScores(refs, comps).means[i].Some? && 0.0 <= ComputeIndicatorScores(refs, comps).means[i].value <= 1.0
  {
    forall i | 0 <= i < |refs|
      ensures ComputeIndicatorScores(refs, comps).means[i].Some?
      ensures 0.0 <= ComputeIndicatorScores(refs, comps).means[i].value <= 1.0
    {
      IndicatorMeans(refs, comps, i);
    }
    if refs == [] {
      assert |ComputeIndicatorScores(refs, comps).means| == 0;
    } else {
      IndicatorMeans(refs, comps, 0);
    }
  }

  /** Without constrained outputs the QA scorer runs with the configured
      similarity measure: the stage raises exactly when the QA scorer does,
      and otherwise writes its means and flat scores. */
  lemma ExecuteQa(cfg: Config, o: Oracles, results: map<string, Value>)
    requires forall v :: IsNorm(v, o.norm(v))
    requires cfg.constrainOutputs.None?
    requires "consistency_answers" in results && results["consistency_answers"].VJsons?
    requires "reference_answers" in results && results["reference_answers"].VJsons?
    requires |results["consistency_answers"].items| > 0
    ensures var refs := results["reference_answers"].items;
      var comps := results["consistency_answers"].items;
      var qa := ComputeScoresQa(refs, comps, cfg.measure, cfg.structured, o);
      var r := Execute(cfg, o, results);
      (r.Ok? <==> qa.Ok?)
      && (r.Ok? ==> r.value[0].1.scores == qa.value.means && r.value[2].1.scores == qa.value.flat)
  {
  }

  /** Alongside the QA scores the indicator scores are written: each
      indicator mean is the fraction of consistency answers equal to the
      reference answer, so it lies in [0,1], and there are n * m flat
      entries. */
  lemma ExecuteQaIndicators(cfg: Config, o: Oracles, results: map<string, Value>)
    requires forall v :: IsNorm(v, o.norm(v))
    requires cfg.constrainOutputs.None?
    requires "consistency_answers" in results && results["consistency_answers"].VJsons?
    requires "reference_answers" in results && results["reference_answers"].VJsons?
    requires |results["consistency_answers"].items| > 0
    ensures var refs := results["reference_answers"].items;
      var comps := results["consistency_answers"].items;
      var r := Execute(cfg, o, results);
      r.Ok? ==>
        |r.value[1].1.scores| == |refs| && |r.value[3].1.scores| == |refs| * |comps|
        && forall i :: 0 <= i < |refs| ==>
          r.value[1].1.scores[i] == Some(multiset(comps)[refs[i]] as real / |comps| as real)
          && 0.0 <= r.value[1].1.scores[i].value <= 1.0
  {
    var refs := results["reference_answers"].items;
    var comps := results["consistency_answers"].items;
    IndicatorMeansInUnit(refs, comps);
    IndicatorFlatLength(refs, comps);
    forall i | 0 <= i < |refs|
      ensures ComputeIndicatorScores(refs, comps).means[i] == Some(multiset(comps)[refs[i]] as real / |comps| as real)
    {
      IndicatorMeans(refs, comps, i);
    }
  }
}
