/** tlm/utils/scoring/consistency_scoring_utils.py: how consistent the
    comparison answers are with each reference answer. Answers are `Json`
    values (a failed comparison carries no string). The LLM judge, the
    embedding service, the vector norm and `ast.literal_eval` are oracles. */
module Consistency {
  import opened Wrappers
  import opened Json
  import opened Types
  import opened Completions
  import opened MathUtils
  import opened Jaccard
  import opened Indicator
  import opened LlmConsistency

  /** LLM_CONSISTENCY_JACCARD_WEIGHT. */
  const JaccardWeight: real := 0.05

  // ---------------------------------------------------------------------
  // Lexical matrix over itertools.product(refs, comps)

  /** Every (reference, comparison) pair is made of two strings: there is
      no pair at all, or every answer is a string. */
  predicate AllPairsStrings(refs: seq<Json>, comps: seq<Json>) {
    refs == [] || comps == [] ||
    ((forall i :: 0 <= i < |refs| ==> refs[i].JStr?) && (forall j :: 0 <= j < |comps| ==> comps[j].JStr?))
  }

  /** `jaccard_similarity` of every pair of the product, one row per
      reference; the word search raises a TypeError on a non-string. */
  function JaccardMatrix(refs: seq<Json>, comps: seq<Json>, structured: bool,
                         literalEval: string -> Option<Json>): (r: Result<seq<seq<Score>>>)
    ensures r.Ok? <==> AllPairsStrings(refs, comps)
    ensures r.Ok? ==> |r.value| == |refs| && IsMatrix(r.value, |comps|)
    ensures r.Ok? ==> forall i, j :: 0 <= i < |refs| && 0 <= j < |comps| ==>
      r.value[i][j] == Some(JaccardSimilarity(refs[i].s, comps[j].s, structured, literalEval))
  {
    if AllPairsStrings(refs, comps) then
      Ok(seq(|refs|, i requires 0 <= i < |refs| =>
        seq(|comps|, j requires 0 <= j < |comps| =>
          Some(JaccardSimilarity(refs[i].s, comps[j].s, structured, literalEval)))))
    else Err("TypeError: expected string or bytes-like object")
  }

  /** _compute_jaccard_similarity_scores: the matrix flattened row-major. */
  function JaccardScores(refs: seq<Json>, comps: seq<Json>, structured: bool,
                         literalEval: string -> Option<Json>): (r: Result<seq<Score>>)
    ensures r.Ok? <==> AllPairsStrings(refs, comps)
    ensures r.Ok? ==> |r.value| == |refs| * |comps|
  {
    var m :- JaccardMatrix(refs, comps, structured, literalEval);
    FlattenLength(m, |comps|);
    Ok(Flatten(m))
  }

  /** Where cell (i, j) of a matrix with `cols` columns sits once flattened. */
  function CellIndex(i: nat, j: nat, cols: nat): nat {
    i * cols + j
  }

  /** Flat entry i·m + j is the similarity of reference i and comparison j,
      a number in [0,1]. */
  lemma JaccardScoresAt(refs: seq<Json>, comps: seq<Json>, structured: bool,
                        literalEval: string -> Option<Json>, i: nat, j: nat)
    requires AllPairsStrings(refs, comps) && i < |refs| && j < |comps|
    ensures var r, k := JaccardScores(refs, comps, structured, literalEval), CellIndex(i, j, |comps|);
      r.Ok? && k < |r.value| &&
      r.value[k] == Some(JaccardSimilarity(refs[i].s, comps[j].s, structured, literalEval)) &&
      0.0 <= r.value[k].value <= 1.0
  {
    var m := JaccardMatrix(refs, comps, structured, literalEval).value;
    FlattenAt(m, |comps|, i, j);
  }

  // ---------------------------------------------------------------------
  // Classification

  /** One cell of _generate_consistency_scores_classification: reference
      `ref` against comparison answer `comp` produced by `outcome`, with the
      allowed labels `labels`. */
  function ClassificationCell(ref: Json, comp: Json, outcome: Outcome, labels: seq<string>): real
  {
    if !(ref.JStr? && ref.s in labels) then 0.0
    else match outcome
      case Failure(_) => 0.0
      case Success(c) =>
        if comp == ref && c.perplexity.Some? then c.perplexity.value
        else if |labels| == 2 then
          if comp.JStr? && comp.s in labels && c.perplexity.Some? then 1.0 - c.perplexity.value else 0.5
        else 0.0
  }

  /** The score matrix: one row per reference, one column per completion. */
  function ClassificationMatrix(refs: seq<Json>, comps: seq<Json>, outcomes: seq<Outcome>,
                                labels: seq<string>): (m: seq<seq<Score>>)
    requires |comps| == |outcomes|
    ensures |m| == |refs| && IsMatrix(m, |outcomes|)
  {
    seq(|refs|, i requires 0 <= i < |refs| =>
      seq(|outcomes|, j requires 0 <= j < |outcomes| =>
        Some(ClassificationCell(refs[i], comps[j], outcomes[j], labels))))
  }

  /** The row means (expected length |refs|) and the flat matrix. */
  function ClassificationScores(refs: seq<Json>, comps: seq<Json>, outcomes: seq<Outcome>,
                                labels: seq<string>): ScoreArrays
    requires |comps| == |outcomes|
  {
    var m := ClassificationMatrix(refs, comps, outcomes, labels);
    ScoreArrays(NanSafeMean(m, Some(|refs|)), Flatten(m))
  }

  /** _generate_consistency_scores_classification: the nested loops that
      append one row of scores per reference answer. */
  method GenerateClassificationScores(refs: seq<Json>, comps: seq<Json>, outcomes: seq<Outcome>,
                                      labels: seq<string>) returns (r: ScoreArrays)
    requires |comps| == |outcomes|
    ensures r == ClassificationScores(refs, comps, outcomes, labels)
  {
    var scores: seq<seq<Score>> := [];
    var i := 0;
    while i < |refs|
      invariant 0 <= i <= |refs|
      invariant scores == ClassificationMatrix(refs, comps, outcomes, labels)[..i]
    {
      var row: seq<Score>;
      if !(refs[i].JStr? && refs[i].s in labels) {
        row := seq(|outcomes|, _ => Some(0.0));
      } else {
        row := [];
        var j := 0;
        while j < |outcomes|
          invariant 0 <= j <= |outcomes|
          invariant |row| == j
          invariant forall k :: 0 <= k < j ==> row[k] == Some(ClassificationCell(refs[i], comps[k], outcomes[k], labels))
        {
          var score: real;
          match outcomes[j] {
            case Failure(_) =>
              score := 0.0;
            case Success(c) =>
              var compAnswer := comps[j];
              if compAnswer == refs[i] && c.perplexity.Some? {
                score := c.perplexity.value;
              } else if |labels| == 2 {
                if compAnswer.JStr? && compAnswer.s in labels && c.perplexity.Some? {
                  score := 1.0 - c.perplexity.value;
                } else {
                  score := 0.5;
                }
              } else {
                score := 0.0;
              }
          }
          row := row + [Some(score)];
          j := j + 1;
        }
      }
      assert row == ClassificationMatrix(refs, comps, outcomes, labels)[i];
      scores := scores + [row];
      i := i + 1;
    }
    assert scores == ClassificationMatrix(refs, comps, outcomes, labels);
    r := ScoreArrays(NanSafeMean(scores, Some(|refs|)), Flatten(scores));
  }

  /** Cell (i, j) of the flat classification scores, case by case: zero for
      a reference outside the labels or a failed completion; the perplexity
      p for an exact match that has one; with exactly two labels 1 - p for
      the other label with perplexity p and 0.5 otherwise; zero otherwise. */
  lemma ClassificationScoresAt(refs: seq<Json>, comps: seq<Json>, outcomes: seq<Outcome>,
                               labels: seq<string>, i: nat, j: nat)
    requires |comps| == |outcomes| && i < |refs| && j < |outcomes|
    ensures var flat := ClassificationScores(refs, comps, outcomes, labels).flat;
      i * |outcomes| + j < |flat| && flat[i * |outcomes| + j].Some? &&
      var v := flat[i * |outcomes| + j].value;
      var ref, comp := refs[i], comps[j];
      (!(ref.JStr? && ref.s in labels) ==> v == 0.0) &&
      (outcomes[j].Failure? ==> v == 0.0) &&
      (outcomes[j].Success? && ref.JStr? && ref.s in labels ==>
        var p := outcomes[j].completion.perplexity;
        (comp == ref && p.Some? ==> v == p.value) &&
        (!(comp == ref && p.Some?) && |labels| == 2 ==>
          v == if comp.JStr? && comp.s in labels && p.Some? then 1.0 - p.value else 0.5) &&
        (!(comp == ref && p.Some?) && |labels| != 2 ==> v == 0.0))
  {
    FlattenAt(ClassificationMatrix(refs, comps, outcomes, labels), |outcomes|, i, j);
  }

  /** Perplexities are probabilities. */
  predicate PerplexitiesInUnit(outcomes: seq<Outcome>) {
    forall k :: 0 <= k < |outcomes| && outcomes[k].Success? && outcomes[k].completion.perplexity.Some? ==>
      0.0 <= outcomes[k].completion.perplexity.value <= 1.0
  }

  /** With perplexities in [0,1] every classification mean is NaN or in [0,1],
      and there is one mean per reference answer. */
  lemma ClassificationMeansInUnit(refs: seq<Json>, comps: seq<Json>, outcomes: seq<Outcome>, labels: seq<string>)
    requires |comps| == |outcomes| && PerplexitiesInUnit(outcomes)
    ensures var means := ClassificationScores(refs, comps, outcomes, labels).means;
      |means| == |refs| &&
      forall k :: 0 <= k < |means| && means[k].Some? ==> 0.0 <= means[k].value <= 1.0
  {
    var m: seq<seq<Score>> := ClassificationMatrix(refs, comps, outcomes, labels);
    assert forall i, j :: 0 <= i < |m| && 0 <= j < |m[i]| ==> m[i][j].Some? && 0.0 <= m[i][j].value <= 1.0;
    NanSafeMeanInUnit(m, Some(|refs|));
  }

  /** Some successful comparison completion carries a perplexity. */
  predicate PerplexityAvailable(outcomes: seq<Outcome>) {
    exists k :: 0 <= k < |outcomes| && outcomes[k].Success? && outcomes[k].completion.perplexity.Some?
  }

  /** compute_consistency_scores_classification. */
  method ComputeConsistencyScoresClassification(refs: seq<Json>, comps: seq<Json>, outcomes: seq<Outcome>,
                                                labels: seq<string>) returns (r: ScoreArrays)
    requires |comps| == |outcomes|
    ensures PerplexityAvailable(outcomes) ==> r == ClassificationScores(refs, comps, outcomes, labels)
    ensures !PerplexityAvailable(outcomes) ==> r == ComputeIndicatorScores(refs, comps)
  {
    if PerplexityAvailable(outcomes) {
      r := GenerateClassificationScores(refs, comps, outcomes, labels);
    } else {
      r := ComputeIndicatorScores(refs, comps);
    }
  }

  // ---------------------------------------------------------------------
  // Blending lexical and judge scores

  /** `where(isnan(judge), lexical, 0.05 lexical + 0.95 judge)` on one cell. */
  function Blend(lexical: Score, judge: Score): (r: Score)
  {
    if judge.None? || lexical.None? then lexical
    else Some(lexical.value * JaccardWeight + judge.value * (1.0 - JaccardWeight))
  }

  /** A blend is NaN exactly when the lexical score is, keeps the lexical
      score when the judge score is NaN, and otherwise lies between the two
      scores, so it stays in [0,1]. */
  lemma BlendBetween(lexical: Score, judge: Score)
    ensures Blend(lexical, judge).None? <==> lexical.None?
    ensures judge.None? ==> Blend(lexical, judge) == lexical
    ensures lexical.Some? && judge.Some? ==>
      var v := Blend(lexical, judge).value;
      (lexical.value <= judge.value ==> lexical.value <= v <= judge.value) &&
      (judge.value <= lexical.value ==> judge.value <= v <= lexical.value)
  {
  }

  /** np.tile of the per-row judge score across each row, blended cell by cell. */
  function BlendRows(rows: seq<seq<Score>>, judged: seq<Score>): seq<seq<Score>>
    requires |judged| == |rows|
  {
    seq(|rows|, i requires 0 <= i < |rows| =>
      seq(|rows[i]|, j requires 0 <= j < |rows[i]| => Blend(rows[i][j], judged[i])))
  }

  // ---------------------------------------------------------------------
  // Code similarity: one judge call per non-identical row

  /** Rows whose median lexical score is not exactly 1.0 go to the judge. */
  function JudgeMask(rows: seq<seq<Score>>, med: seq<nat>): seq<bool>
    requires |med| == |rows| && forall i :: 0 <= i < |rows| ==> med[i] < |rows[i]|
  {
    seq(|rows|, i requires 0 <= i < |rows| => rows[i][med[i]] != Some(1.0))
  }

  /** `comparison_answers_subset`: the comparison at each row's median. */
  function MedianComparisons(comps: seq<Json>, med: seq<nat>): seq<Json>
    requires forall i :: 0 <= i < |med| ==> med[i] < |comps|
  {
    seq(|med|, i requires 0 <= i < |med| => comps[med[i]])
  }

  /** The per-row judge scores `llm_consistency_scores`: 1.0 on identical
      rows, the judge's verdict elsewhere; the judge's error when it raised. */
  function CodeJudgeScores(refs: seq<Json>, comps: seq<Json>, rows: seq<seq<Score>>, med: seq<nat>,
                           judge: Judge): (r: Result<seq<Score>>)
    requires |refs| == |rows| == |med|
    requires forall i :: 0 <= i < |rows| ==> med[i] < |rows[i]| && med[i] < |comps|
    ensures r.Ok? ==> |r.value| == |rows|
  {
    var mask := JudgeMask(rows, med);
    if CountTrue(mask) == 0 then Ok(Scatter(mask, [], Some(1.0)))
    else
      var subRefs := Gather(refs, mask);
      var subComps := Gather(MedianComparisons(comps, med), mask);
      LlmConsistencyScoresSpec(subRefs, subComps, CodeConsistency, judge);
      match LlmConsistencyScores(subRefs, subComps, CodeConsistency, judge)
      case Err(e) => Err(e)
      case Ok(js) => Ok(Scatter(mask, js, Some(1.0)))
  }

  /** The judge is asked exactly about (reference i, comparison at median i)
      for the rows whose median lexical score is not 1.0. It succeeds iff
      none of those requests raises; then an identical row scores 1.0 and
      any other row scores the judge's verdict on its request. */
  lemma CodeJudgeScoresSpec(refs: seq<Json>, comps: seq<Json>, rows: seq<seq<Score>>, med: seq<nat>, judge: Judge)
    requires |refs| == |rows| == |med|
    requires forall i :: 0 <= i < |rows| ==> med[i] < |rows[i]| && med[i] < |comps|
    ensures var r := CodeJudgeScores(refs, comps, rows, med, judge);
      (r.Ok? <==> forall i :: 0 <= i < |rows| && rows[i][med[i]] != Some(1.0) ==>
                    judge(CodeConsistency, refs[i], comps[med[i]]).Returned?) &&
      (r.Ok? ==> forall i :: 0 <= i < |rows| ==>
        r.value[i] == if rows[i][med[i]] == Some(1.0) then Some(1.0)
                      else JudgeScore(judge(CodeConsistency, refs[i], comps[med[i]])))
  {
    var mask := JudgeMask(rows, med);
    var r := CodeJudgeScores(refs, comps, rows, med, judge);
    if CountTrue(mask) == 0 {
      assert r == Ok(Scatter(mask, [], Some(1.0)));
      forall i | 0 <= i < |rows|
        ensures rows[i][med[i]] == Some(1.0) && r.value[i] == Some(1.0)
      {
        ScatterAt(mask, [], Some(1.0), i);
        assert !mask[i];
      }
    } else {
      var subRefs := Gather(refs, mask);
      var subComps := Gather(MedianComparisons(comps, med), mask);
      LlmConsistencyScoresSpec(subRefs, subComps, CodeConsistency, judge);
      var pairs := Zip(subRefs, subComps);
      forall i | 0 <= i < |rows| && mask[i]
        ensures CountTrue(mask[..i]) < |pairs|
        ensures pairs[CountTrue(mask[..i])] == (refs[i], comps[med[i]])
      {
        GatherAt(refs, mask, i);
        GatherAt(MedianComparisons(comps, med), mask, i);
      }
      var calls := LlmConsistencyScores(subRefs, subComps, CodeConsistency, judge);
      if calls.Ok? {
        forall i | 0 <= i < |rows|
          ensures r.value[i] == if rows[i][med[i]] == Some(1.0) then Some(1.0)
                                else JudgeScore(judge(CodeConsistency, refs[i], comps[med[i]]))
        {
          ScatterAt(mask, calls.value, Some(1.0), i);
        }
      } else {
        var k :| 0 <= k < |pairs| && !judge(CodeConsistency, pairs[k].0, pairs[k].1).Returned?;
        CountTruePreimage(mask, k);
        var i :| 0 <= i < |mask| && mask[i] && CountTrue(mask[..i]) == k;
        assert !judge(CodeConsistency, refs[i], comps[med[i]]).Returned?;
      }
    }
  }

  /** Every rank below the number of set entries is the rank of one set entry. */
  lemma {:induction false} CountTruePreimage(mask: seq<bool>, k: nat)
    requires k < CountTrue(mask)
    ensures exists i :: 0 <= i < |mask| && mask[i] && CountTrue(mask[..i]) == k
  {
    var last := |mask| - 1;
    var init := mask[..last];
    assert mask[..last] == init;
    if k < CountTrue(init) {
      CountTruePreimage(init, k);
      var i :| 0 <= i < |init| && init[i] && CountTrue(init[..i]) == k;
      assert init[..i] == mask[..i];
    } else {
      assert mask[last] && CountTrue(mask[..last]) == k;
    }
  }

  /** Requirements on the median indices of a lexical matrix. */
  predicate MediansFit(refs: seq<Json>, comps: seq<Json>, rows: seq<seq<Score>>, med: seq<nat>) {
    |refs| == |rows| == |med| && IsMatrix(rows, |comps|) &&
    forall i :: 0 <= i < |rows| ==> med[i] < |comps|
  }

  /** The blending stage of the code path, once the median indices are known:
      the plain lexical scores `flat` when the judge raised. */
  function CodeBlend(refs: seq<Json>, comps: seq<Json>, flat: seq<Score>, rows: seq<seq<Score>>,
                     med: seq<nat>, judge: Judge): Result<seq<Score>>
    requires MediansFit(refs, comps, rows, med)
  {
    match CodeJudgeScores(refs, comps, rows, med, judge)
    case Err(_) => Ok(flat)
    case Ok(llm) => Ok(Flatten(BlendRows(rows, llm)))
  }

  /** _compute_code_similarity_scores: the lexical matrix; the median
      column of each row; one judge request per row whose median lexical
      score is not 1.0; every cell blended with its row's judge score; the
      plain lexical scores when the judge raised. */
  function CodeSimilarityScores(refs: seq<Json>, comps: seq<Json>, judge: Judge,
                                literalEval: string -> Option<Json>): (r: Result<seq<Score>>)
  {
    var flat :- JaccardScores(refs, comps, false, literalEval);
    var rows :- Reshape(flat, |refs|);
    MulDiv(|refs|, |comps|);
    var med :- MedianIndices(rows);
    CodeBlend(refs, comps, flat, rows, med, judge)
  }

  /** `llm[is_identical_mask] = 1.0` with the identical rows being the unset
      entries of `mask`. */
  method MarkIdentical(llm: array<Score>, mask: seq<bool>)
    requires llm.Length == |mask|
    modifies llm
    ensures forall t :: 0 <= t < |mask| ==> llm[t] == if mask[t] then old(llm[t]) else Some(1.0)
  {
    var i := 0;
    while i < |mask|
      invariant 0 <= i <= |mask|
      invariant forall t :: 0 <= t < i ==> llm[t] == if mask[t] then old(llm[t]) else Some(1.0)
      invariant forall t :: i <= t < |mask| ==> llm[t] == old(llm[t])
    {
      if !mask[i] {
        llm[i] := Some(1.0);
      }
      i := i + 1;
    }
  }

  /** `llm[~is_identical_mask] = judged`: the set entries of `mask` receive
      the judge scores in order, the others already hold 1.0. */
  method WriteJudged(llm: array<Score>, mask: seq<bool>, judged: seq<Score>)
    requires llm.Length == |mask| && |judged| == CountTrue(mask)
    requires forall t :: 0 <= t < |mask| && !mask[t] ==> llm[t] == Some(1.0)
    modifies llm
    ensures llm[..] == Scatter(mask, judged, Some(1.0))
  {
    var k := 0;
    var i := 0;
    while i < |mask|
      invariant 0 <= i <= |mask| && k == CountTrue(mask[..i])
      invariant forall t :: 0 <= t < i ==> llm[t] == Scatter(mask, judged, Some(1.0))[t]
      invariant forall t :: i <= t < |mask| && !mask[t] ==> llm[t] == Some(1.0)
    {
      ScatterAt(mask, judged, Some(1.0), i);
      assert mask[..i + 1][..i] == mask[..i];
      if mask[i] {
        llm[i] := judged[k];
        k := k + 1;
      }
      i := i + 1;
    }
  }

  /** The blending stage as the source does it: `llm_consistency_scores` is
      a NaN-filled vector written in place, first through the identical
      mask and then through its complement. */
  method CodeBlendInPlace(refs: seq<Json>, comps: seq<Json>, flat: seq<Score>, rows: seq<seq<Score>>,
                          med: seq<nat>, judge: Judge) returns (r: Result<seq<Score>>)
    requires MediansFit(refs, comps, rows, med)
    ensures r == CodeBlend(refs, comps, flat, rows, med, judge)
  {
    var mask := JudgeMask(rows, med);
    var llm := new Score[|refs|](_ => None);
    MarkIdentical(llm, mask);
    var judged: seq<Score> := [];
    if CountTrue(mask) > 0 {
      var subRefs := Gather(refs, mask);
      var subComps := Gather(MedianComparisons(comps, med), mask);
      LlmConsistencyScoresSpec(subRefs, subComps, CodeConsistency, judge);
      var calls := LlmConsistencyScores(subRefs, subComps, CodeConsistency, judge);
      if calls.Err? {
        return Ok(flat);
      }
      judged := calls.value;
    }
    WriteJudged(llm, mask, judged);
    assert CodeJudgeScores(refs, comps, rows, med, judge) == Ok(llm[..]);
    r := Ok(Flatten(BlendRows(rows, llm[..])));
  }

  /** _compute_code_similarity_scores with the in-place blending stage. */
  method ComputeCodeSimilarityScores(refs: seq<Json>, comps: seq<Json>, judge: Judge,
                                     literalEval: string -> Option<Json>) returns (r: Result<seq<Score>>)
    ensures r == CodeSimilarityScores(refs, comps, judge, literalEval)
  {
    var lexical := JaccardScores(refs, comps, false, literalEval);
    if lexical.Err? {
      return Err(lexical.error);
    }
    var flat := lexical.value;
    var reshaped := Reshape(flat, |refs|);
    if reshaped.Err? {
      return Err(reshaped.error);
    }
    var rows := reshaped.value;
    MulDiv(|refs|, |comps|);
    var medians := GetMedianIndices(rows);
    if medians.Err? {
      return Err(medians.error);
    }
    r := CodeBlendInPlace(refs, comps, flat, rows, medians.value, judge);
  }

  /** Every judge request of the code path returns. */
  predicate CodeJudgeReturns(refs: seq<Json>, comps: seq<Json>, rows: seq<seq<Score>>, med: seq<nat>, judge: Judge)
    requires MediansFit(refs, comps, rows, med)
  {
    forall k :: 0 <= k < |rows| && rows[k][med[k]] != Some(1.0) ==>
      judge(CodeConsistency, refs[k], comps[med[k]]).Returned?
  }

  /** The judge score of row i when every request returns. */
  function CodeRowJudgeScore(refs: seq<Json>, comps: seq<Json>, rows: seq<seq<Score>>, med: seq<nat>,
                             judge: Judge, i: nat): Score
    requires MediansFit(refs, comps, rows, med) && i < |rows|
    requires rows[i][med[i]] != Some(1.0) ==> judge(CodeConsistency, refs[i], comps[med[i]]).Returned?
  {
    if rows[i][med[i]] == Some(1.0) then Some(1.0)
    else JudgeScore(judge(CodeConsistency, refs[i], comps[med[i]]))
  }

  /** Cell (i, j) of the blending stage: when no judge request raised, the
      lexical score blended with the row's judge score (1.0 for a row whose
      median lexical score is 1.0, which is blended too; else the verdict on
      reference i and the comparison at the row's median); when one raised,
      the plain lexical score. */
  lemma CodeBlendAt(refs: seq<Json>, comps: seq<Json>, rows: seq<seq<Score>>, med: seq<nat>,
                    judge: Judge, i: nat, j: nat)
    requires MediansFit(refs, comps, rows, med) && i < |refs| && j < |comps|
    ensures var r, k := CodeBlend(refs, comps, Flatten(rows), rows, med, judge), CellIndex(i, j, |comps|);
      r.Ok? && k < |r.value| &&
      (!CodeJudgeReturns(refs, comps, rows, med, judge) ==> r.value[k] == rows[i][j]) &&
      (CodeJudgeReturns(refs, comps, rows, med, judge) ==>
        r.value[k] == Blend(rows[i][j], CodeRowJudgeScore(refs, comps, rows, med, judge, i)))
  {
    CodeJudgeScoresSpec(refs, comps, rows, med, judge);
    FlattenAt(rows, |comps|, i, j);
    var llm := CodeJudgeScores(refs, comps, rows, med, judge);
    if llm.Ok? {
      FlattenAt(BlendRows(rows, llm.value), |comps|, i, j);
    }
  }

  /** With string answers and at least one of each, the code scores exist
      and are the blending stage applied to the lexical matrix and its
      per-row median indices (so CodeBlendAt gives each cell). */
  lemma CodeSimilarityScoresUnfold(refs: seq<Json>, comps: seq<Json>, judge: Judge,
                                   literalEval: string -> Option<Json>)
    requires AllPairsStrings(refs, comps) && |refs| > 0 && |comps| > 0
    ensures var lex := JaccardMatrix(refs, comps, false, literalEval).value;
      MedianIndices(lex).Ok? && MediansFit(refs, comps, lex, MedianIndices(lex).value) &&
      CodeSimilarityScores(refs, comps, judge, literalEval) ==
        CodeBlend(refs, comps, Flatten(lex), lex, MedianIndices(lex).value, judge)
  {
    var lex := JaccardMatrix(refs, comps, false, literalEval).value;
    ReshapeFlatten(lex, |comps|);
    forall k | 0 <= k < |lex|
      ensures MedianIndex(lex[k]).Some?
    {
      assert lex[k][0].Some?;
    }
  }

  // ---------------------------------------------------------------------
  // Statement similarity: the judge on zip(refs, comps)

  /** `where(isnan(d), lexical, 0.05 lexical + 0.95 d)` under numpy
      broadcasting of two vectors: equal lengths pair up, a length-1 vector
      is repeated, anything else is a ValueError. */
  function BroadcastBlend(lexical: seq<Score>, judged: seq<Score>): (r: Result<seq<Score>>)
  {
    if |lexical| == |judged| then Ok(seq(|lexical|, k requires 0 <= k < |lexical| => Blend(lexical[k], judged[k])))
    else if |judged| == 1 then Ok(seq(|lexical|, k requires 0 <= k < |lexical| => Blend(lexical[k], judged[0])))
    else if |lexical| == 1 then Ok(seq(|judged|, k requires 0 <= k < |judged| => Blend(lexical[0], judged[k])))
    else Err("ValueError: operands could not be broadcast together")
  }

  /** _compute_statement_similarity_scores: the judge error is not caught. */
  function StatementSimilarityScores(refs: seq<Json>, comps: seq<Json>, judge: Judge,
                                     literalEval: string -> Option<Json>): (r: Result<seq<Score>>)
  {
    var lexical :- JaccardScores(refs, comps, false, literalEval);
    var judged :- LlmConsistencyScores(refs, comps, StatementConsistency, judge);
    BroadcastBlend(lexical, judged)
  }

  /** Blending the n·m lexical scores with the min(n, m) judge scores of a
      non-empty product succeeds iff n = 1 or m = 1, and then every lexical
      score is blended with the first judge score. */
  lemma BroadcastBlendProduct(lexical: seq<Score>, judged: seq<Score>, n: nat, m: nat)
    requires n > 0 && m > 0 && |lexical| == n * m && |judged| == Min(n, m)
    ensures var r := BroadcastBlend(lexical, judged);
      (r.Ok? <==> n == 1 || m == 1) &&
      (r.Ok? ==> |r.value| == n * m && forall k :: 0 <= k < n * m ==> r.value[k] == Blend(lexical[k], judged[0]))
  {
    if n != 1 && m != 1 {
      MulAtLeast(n, m);
      MulAtLeast(m, n);
      assert n * m >= 2 * Min(n, m) by {
        if n <= m { MulMono(n, 2, m); } else { MulMono(m, 2, n); }
      }
    }
  }

  /** For string answers with at least one of each: a raised judge request
      is an error; otherwise the statement scores exist iff there is one
      reference or one comparison answer, and then each of them is the
      lexical score at the same position (JaccardScoresAt) blended with the
      verdict on the first pair (reference 0, comparison 0), the only pair
      the judge sees. */
  lemma StatementSimilarityScoresSpec(refs: seq<Json>, comps: seq<Json>, judge: Judge,
                                      literalEval: string -> Option<Json>)
    requires AllPairsStrings(refs, comps) && |refs| > 0 && |comps| > 0
    ensures var r := StatementSimilarityScores(refs, comps, judge, literalEval);
      var lexical := JaccardScores(refs, comps, false, literalEval).value;
      ((exists p :: 0 <= p < Min(|refs|, |comps|) && judge(StatementConsistency, refs[p], comps[p]).Raised?) ==> r.Err?) &&
      ((forall p :: 0 <= p < Min(|refs|, |comps|) ==> judge(StatementConsistency, refs[p], comps[p]).Returned?) ==>
        (r.Ok? <==> |refs| == 1 || |comps| == 1)) &&
      (r.Ok? ==>
         |r.value| == |lexical| &&
         forall k :: 0 <= k < |lexical| ==>
           r.value[k] == Blend(lexical[k], JudgeScore(judge(StatementConsistency, refs[0], comps[0]))))
  {
    LlmConsistencyScoresSpec(refs, comps, StatementConsistency, judge);
    var pairs := Zip(refs, comps);
    var judged := LlmConsistencyScores(refs, comps, StatementConsistency, judge);
    if judged.Ok? {
      var lexical := JaccardScores(refs, comps, false, literalEval).value;
      assert StatementSimilarityScores(refs, comps, judge, literalEval) == BroadcastBlend(lexical, judged.value);
      BroadcastBlendProduct(lexical, judged.value, |refs|, |comps|);
      assert pairs[0] == (refs[0], comps[0]);
    }
  }

  lemma {:induction false} MulMono(a: nat, b: nat, c: nat)
    requires b <= c
    ensures a * b <= a * c
  {
    if a > 0 {
      MulMono(a - 1, b, c);
      assert a * b == (a - 1) * b + b;
      assert a * c == (a - 1) * c + c;
    }
  }

  // ---------------------------------------------------------------------
  // Embedding similarity (the embedding service is an oracle)

  /** EMBEDDING_MODELS. */
  function EmbeddingModel(measure: SimilarityMeasure): string
    requires measure.EmbeddingSmall? || measure.EmbeddingLarge?
  {
    if measure.EmbeddingSmall? then "text-embedding-3-small" else "text-embedding-3-large"
  }

  /** `get_text_embedding(client, text, model)`. */
  type Embedder = (string, Json) -> Result<seq<real>>

  /** The embeddings of all texts in order; the first failure is reported. */
  function EmbedAll(texts: seq<Json>, model: string, embed: Embedder): (r: Result<seq<seq<real>>>)
    ensures r.Ok? <==> forall k :: 0 <= k < |texts| ==> embed(model, texts[k]).Ok?
    ensures r.Ok? ==> |r.value| == |texts| && forall k :: 0 <= k < |texts| ==> r.value[k] == embed(model, texts[k]).value
  {
    if texts == [] then Ok([])
    else
      var head :- embed(model, texts[0]);
      var tail :- EmbedAll(texts[1..], model, embed);
      Ok([head] + tail)
  }

  /** _compute_embedding_similarity_scores: the clipped cosine similarity
      of every pair of the product, row-major; the vector norm is `norm`. */
  function EmbeddingSimilarityScores(refs: seq<Json>, comps: seq<Json>, model: string, embed: Embedder,
                                     norm: seq<real> -> real): (r: Result<seq<Score>>)
    requires forall v :: IsNorm(v, norm(v))
  {
    var refVectors :- EmbedAll(refs, model, embed);
    var compVectors :- EmbedAll(comps, model, embed);
    if forall i, j :: 0 <= i < |refs| && 0 <= j < |comps| ==> |refVectors[i]| == |compVectors[j]| then
      var m := seq(|refs|, i requires 0 <= i < |refs| =>
        seq(|comps|, j requires 0 <= j < |comps| =>
          CosineSimilarity(refVectors[i], compVectors[j], norm(refVectors[i]), norm(compVectors[j]))));
      Ok(Flatten(m))
    else Err("ValueError: shapes not aligned")
  }

  /** Every embedding score is NaN (a zero vector) or in [0,1], and there is
      one per pair of the product. */
  lemma EmbeddingScoresInUnit(refs: seq<Json>, comps: seq<Json>, model: string, embed: Embedder,
                              norm: seq<real> -> real, k: nat)
    requires forall v :: IsNorm(v, norm(v))
    ensures var r := EmbeddingSimilarityScores(refs, comps, model, embed, norm);
      r.Ok? ==>
        |r.value| == |refs| * |comps| &&
        (k < |r.value| && r.value[k].Some? ==> 0.0 <= r.value[k].value <= 1.0)
  {
    var r := EmbeddingSimilarityScores(refs, comps, model, embed, norm);
    if r.Ok? {
      var refVectors := EmbedAll(refs, model, embed).value;
      var compVectors := EmbedAll(comps, model, embed).value;
      var m := seq(|refs|, i requires 0 <= i < |refs| =>
        seq(|comps|, j requires 0 <= j < |comps| =>
          CosineSimilarity(refVectors[i], compVectors[j], norm(refVectors[i]), norm(compVectors[j]))));
      assert r.value == Flatten(m);
      FlattenLength(m, |comps|);
      if k < |r.value| {
        FlattenEntryFrom(m, |comps|, k);
      }
    }
  }

  /** Each entry of a row-major flattening comes from some cell. */
  lemma {:induction false} FlattenEntryFrom<T>(m: seq<seq<T>>, cols: nat, k: nat)
    requires IsMatrix(m, cols) && k < |Flatten(m)|
    ensures exists i, j :: 0 <= i < |m| && 0 <= j < cols && Flatten(m)[k] == m[i][j]
  {
    FlattenLength(m, cols);
    if k < cols {
      assert Flatten(m)[k] == m[0][k];
    } else {
      FlattenLength(m[1..], cols);
      FlattenEntryFrom(m[1..], cols, k - cols);
      var i, j :| 0 <= i < |m[1..]| && 0 <= j < cols && Flatten(m[1..])[k - cols] == m[1..][i][j];
      assert Flatten(m)[k] == m[i + 1][j];
    }
  }

  // ---------------------------------------------------------------------
  // Question answering

  /** The external services the QA scorer calls. */
  datatype Oracles = Oracles(
    judge: Judge,
    embed: Embedder,
    norm: seq<real> -> real,
    literalEval: string -> Option<Json>)

  /** The flat scores of `_compute_scores_qa` for one similarity measure. */
  function QaSimilarityScores(refs: seq<Json>, comps: seq<Json>, measure: SimilarityMeasure,
                              structured: bool, o: Oracles): (r: Result<seq<Score>>)
    requires forall v :: IsNorm(v, o.norm(v))
  {
    if measure.Jaccard? then JaccardScores(refs, comps, structured, o.literalEval)
    else if measure.EmbeddingSmall? || measure.EmbeddingLarge? then
      EmbeddingSimilarityScores(refs, comps, EmbeddingModel(measure), o.embed, o.norm)
    else if measure.Code? then CodeSimilarityScores(refs, comps, o.judge, o.literalEval)
    else StatementSimilarityScores(refs, comps, o.judge, o.literalEval)
  }

  /** compute_consistency_scores / _compute_scores_qa: the flat scores
      reshaped into one row per reference and reduced by the NaN-safe mean. */
  function ComputeScoresQa(refs: seq<Json>, comps: seq<Json>, measure: SimilarityMeasure,
                           structured: bool, o: Oracles): (r: Result<ScoreArrays>)
    requires forall v :: IsNorm(v, o.norm(v))
  {
    var scores :- QaSimilarityScores(refs, comps, measure, structured, o);
    var rows :- Reshape(scores, |refs|);
    Ok(ScoreArrays(NanSafeMean(rows, Some(|refs|)), scores))
  }

  /** With no reference answer the reshape always fails; with Jaccard over
      strings and at least one reference the result has one mean per
      reference, mean i being the NaN-safe mean of row i of the lexical
      matrix, and every mean lies in [0,1]. */
  lemma ComputeScoresQaJaccard(refs: seq<Json>, comps: seq<Json>, structured: bool, o: Oracles)
    requires forall v :: IsNorm(v, o.norm(v))
    ensures |refs| == 0 ==> ComputeScoresQa(refs, comps, Jaccard, structured, o).Err?
    ensures AllPairsStrings(refs, comps) && |refs| > 0 ==>
      var r := ComputeScoresQa(refs, comps, Jaccard, structured, o);
      var lex := JaccardMatrix(refs, comps, structured, o.literalEval).value;
      r.Ok? && r.value.flat == Flatten(lex) && r.value.means == NanSafeMean(lex, Some(|refs|)) &&
      |r.value.means| == |refs| &&
      forall k :: 0 <= k < |refs| && r.value.means[k].Some? ==> 0.0 <= r.value.means[k].value <= 1.0
  {
    if AllPairsStrings(refs, comps) && |refs| > 0 {
      var lex := JaccardMatrix(refs, comps, structured, o.literalEval).value;
      ReshapeFlatten(lex, |comps|);
      NanSafeMeanInUnit(lex, Some(|refs|));
    }
  }

  // ---------------------------------------------------------------------
  // The lexical example

  lemma SimilarityHalf(x: set<string>, y: set<string>, other: string)
    requires x == {"Hello"} && y == {"Hello", other} && other != "Hello"
    ensures Similarity(x, y, 0) == 0.5
  {
    assert x * y == {"Hello"};
    assert x + y == {"Hello", other};
  }

  lemma SimilarityWorldUniverse(x: set<string>, y: set<string>)
    requires x == {"Hello", "world"} && y == {"Hello", "universe"}
    ensures Similarity(x, y, 0) == 1.0 / 3.0
  {
    SimilarityOneThird(x, y);
  }

  /** "Hello, " followed by one word and an optional trailing gap. */
  lemma WordSetHelloThen(s: string, w: string, tail: string)
    requires s == "Hello, " + w + tail
    requires IsWord(w) && IsGap(tail)
    ensures WordSet(s) == {"Hello", w}
  {
    assert s == "" + "Hello" + ", " + w + tail;
    WordSetTwo(s, "", "Hello", ", ", w, tail);
  }

  lemma WordSetHelloWorld(a: string, c: string)
    requires a == "Hello, world!" && c == "Hello, world"
    ensures WordSet(a) == WordSet(c) == {"Hello", "world"}
  {
    WordSetHelloThen(a, "world", "!");
    WordSetHelloThen(c, "world", "");
  }

  lemma WordSetHelloUniverse(d: string, e: string)
    requires d == "Hello, universe" && e == "Hello, universe!"
    ensures WordSet(d) == WordSet(e) == {"Hello", "universe"}
  {
    WordSetHelloThen(d, "universe", "");
    WordSetHelloThen(e, "universe", "!");
  }

  lemma WordSetHello(b: string)
    requires b == "Hello"
    ensures WordSet(b) == {"Hello"}
  {
    WordSetOf(b, ["", ""], ["Hello"]);
  }

  lemma ExampleSimilaritiesWorld(a: string, c: string, d: string, e: string, literalEval: string -> Option<Json>)
    requires WordSet(a) == WordSet(c) == {"Hello", "world"}
    requires WordSet(d) == WordSet(e) == {"Hello", "universe"}
    ensures JaccardSimilarity(a, c, false, literalEval) == 1.0
    ensures JaccardSimilarity(a, d, false, literalEval) == 1.0 / 3.0
    ensures JaccardSimilarity(a, e, false, literalEval) == 1.0 / 3.0
  {
    SimilaritySelf(WordSet(a), 0);
    SimilarityWorldUniverse(WordSet(a), WordSet(d));
  }

  lemma ExampleSimilaritiesHello(b: string, c: string, d: string, e: string, literalEval: string -> Option<Json>)
    requires WordSet(b) == {"Hello"} && WordSet(c) == {"Hello", "world"}
    requires WordSet(d) == WordSet(e) == {"Hello", "universe"}
    ensures JaccardSimilarity(b, c, false, literalEval) == 0.5
    ensures JaccardSimilarity(b, d, false, literalEval) == 0.5
    ensures JaccardSimilarity(b, e, false, literalEval) == 0.5
  {
    SimilarityHalf(WordSet(b), WordSet(c), "world");
    SimilarityHalf(WordSet(b), WordSet(d), "universe");
  }

  /** The lexical matrix of answers with the word sets of the unit test. */
  lemma LexicalExampleMatrix(refs: seq<Json>, comps: seq<Json>, a: string, b: string, c: string, d: string, e: string,
                             literalEval: string -> Option<Json>)
    requires refs == [JStr(a), JStr(b), JStr(a)] && comps == [JStr(c), JStr(d), JStr(e)]
    requires JaccardSimilarity(a, c, false, literalEval) == 1.0
    requires JaccardSimilarity(a, d, false, literalEval) == JaccardSimilarity(a, e, false, literalEval) == 1.0 / 3.0
    requires JaccardSimilarity(b, c, false, literalEval) == JaccardSimilarity(b, d, false, literalEval) == 0.5
    requires JaccardSimilarity(b, e, false, literalEval) == 0.5
    ensures JaccardMatrix(refs, comps, false, literalEval) ==
      Ok([[Some(1.0), Some(1.0 / 3.0), Some(1.0 / 3.0)],
          [Some(0.5), Some(0.5), Some(0.5)],
          [Some(1.0), Some(1.0 / 3.0), Some(1.0 / 3.0)]])
  {
    AllStrings(refs, a, b, a);
    AllStrings(comps, c, d, e);
    var lex := JaccardMatrix(refs, comps, false, literalEval).value;
    ExampleRow(refs, comps, literalEval, 0, 1.0, 1.0 / 3.0, 1.0 / 3.0);
    ExampleRow(refs, comps, literalEval, 1, 0.5, 0.5, 0.5);
    ExampleRow(refs, comps, literalEval, 2, 1.0, 1.0 / 3.0, 1.0 / 3.0);
    ThreeEntries(lex, lex[0], lex[1], lex[2]);
  }

  lemma AllStrings(js: seq<Json>, x: string, y: string, z: string)
    requires js == [JStr(x), JStr(y), JStr(z)]
    ensures forall i :: 0 <= i < |js| ==> js[i].JStr?
  {
  }

  /** One row of a lexical matrix against three comparisons. */
  lemma ExampleRow(refs: seq<Json>, comps: seq<Json>, literalEval: string -> Option<Json>, i: nat, x: real, y: real, z: real)
    requires AllPairsStrings(refs, comps) && |comps| == 3 && i < |refs|
    requires JaccardSimilarity(refs[i].s, comps[0].s, false, literalEval) == x
    requires JaccardSimilarity(refs[i].s, comps[1].s, false, literalEval) == y
    requires JaccardSimilarity(refs[i].s, comps[2].s, false, literalEval) == z
    ensures JaccardMatrix(refs, comps, false, literalEval).value[i] == [Some(x), Some(y), Some(z)]
  {
    var row := JaccardMatrix(refs, comps, false, literalEval).value[i];
    ThreeEntries(row, Some(x), Some(y), Some(z));
  }

  lemma ThreeEntries<T>(s: seq<T>, x: T, y: T, z: T)
    requires |s| == 3 && s[0] == x && s[1] == y && s[2] == z
    ensures s == [x, y, z]
  {
  }

  /** The unit test of the Jaccard consistency scores: flat scores
      [1, 1/3, 1/3, .5, .5, .5, 1, 1/3, 1/3] and means [5/9, .5, 5/9]. */
  lemma ComputeScoresQaExample(refs: seq<Json>, comps: seq<Json>, o: Oracles)
    requires forall v :: IsNorm(v, o.norm(v))
    requires refs == [JStr("Hello, world!"), JStr("Hello"), JStr("Hello, world!")]
    requires comps == [JStr("Hello, world"), JStr("Hello, universe"), JStr("Hello, universe!")]
    ensures ComputeScoresQa(refs, comps, Jaccard, false, o) ==
      Ok(ScoreArrays([Some(5.0 / 9.0), Some(0.5), Some(5.0 / 9.0)],
                     [Some(1.0), Some(1.0 / 3.0), Some(1.0 / 3.0), Some(0.5), Some(0.5), Some(0.5),
                      Some(1.0), Some(1.0 / 3.0), Some(1.0 / 3.0)]))
  {
    var a, b, c, d, e := refs[0].s, refs[1].s, comps[0].s, comps[1].s, comps[2].s;
    WordSetHelloWorld(a, c);
    WordSetHello(b);
    WordSetHelloUniverse(d, e);
    ExampleSimilaritiesWorld(a, c, d, e, o.literalEval);
    ExampleSimilaritiesHello(b, c, d, e, o.literalEval);
    LexicalExampleMatrix(refs, comps, a, b, c, d, e, o.literalEval);
    ScoresFromExampleMatrix(refs, comps, o);
  }

  lemma ScoresFromExampleMatrix(refs: seq<Json>, comps: seq<Json>, o: Oracles)
    requires forall v :: IsNorm(v, o.norm(v))
    requires |refs| == 3 && AllPairsStrings(refs, comps)
    requires JaccardMatrix(refs, comps, false, o.literalEval) ==
      Ok([[Some(1.0), Some(1.0 / 3.0), Some(1.0 / 3.0)],
          [Some(0.5), Some(0.5), Some(0.5)],
          [Some(1.0), Some(1.0 / 3.0), Some(1.0 / 3.0)]])
    ensures ComputeScoresQa(refs, comps, Jaccard, false, o) ==
      Ok(ScoreArrays([Some(5.0 / 9.0), Some(0.5), Some(5.0 / 9.0)],
                     [Some(1.0), Some(1.0 / 3.0), Some(1.0 / 3.0), Some(0.5), Some(0.5), Some(0.5),
                      Some(1.0), Some(1.0 / 3.0), Some(1.0 / 3.0)]))
  {
    ComputeScoresQaJaccard(refs, comps, false, o);
    var row0: seq<Score> := [Some(1.0), Some(1.0 / 3.0), Some(1.0 / 3.0)];
    var row1: seq<Score> := [Some(0.5), Some(0.5), Some(0.5)];
    var lex := [row0, row1, row0];
    var r := ComputeScoresQa(refs, comps, Jaccard, false, o).value;
    assert Flatten(lex) == row0 + (row1 + (row0 + [])) by {
      assert lex[1..] == [row1, row0];
      assert lex[1..][1..] == [row0];
      assert lex[1..][1..][1..] == [];
    }
    ExampleFlat(row0, row1);
    RowMeanThree(row0, 1.0, 1.0 / 3.0, 1.0 / 3.0);
    RowMeanThree(row1, 0.5, 0.5, 0.5);
    assert !AllNaN(lex) by { assert lex[0][0].Some?; }
    var means := NanSafeMean(lex, Some(3));
    ThreeEntries(means, Some(5.0 / 9.0), Some(0.5), Some(5.0 / 9.0));
  }

  lemma ExampleFlat(row0: seq<Score>, row1: seq<Score>)
    requires row0 == [Some(1.0), Some(1.0 / 3.0), Some(1.0 / 3.0)] && row1 == [Some(0.5), Some(0.5), Some(0.5)]
    ensures row0 + (row1 + (row0 + [])) ==
      [Some(1.0), Some(1.0 / 3.0), Some(1.0 / 3.0), Some(0.5), Some(0.5), Some(0.5),
       Some(1.0), Some(1.0 / 3.0), Some(1.0 / 3.0)]
  {
  }

  lemma RowMeanThree(row: seq<Score>, x: real, y: real, z: real)
    requires row == [Some(x), Some(y), Some(z)]
    ensures RowMean(row) == Some((x + y + z) / 3.0)
  {
    var r1, r2 := row[1..], row[1..][1..];
    assert r1 == [Some(y), Some(z)] && r2 == [Some(z)] && r2[1..] == [];
    assert ValidValues(r2) == [z];
    assert ValidValues(r1) == [y] + [z];
    var vs := [x, y, z];
    assert ValidValues(row) == [x] + ([y] + [z]) == vs;
    assert vs[1..] == [y, z] && vs[1..][1..] == [z] && vs[1..][1..][1..] == [];
    assert Sum(vs[1..][1..]) == z + Sum([]);
    assert Sum(vs[1..]) == y + Sum(vs[1..][1..]);
    assert Sum(vs) == x + (y + z);
    assert vs != [] && Mean(vs) == (x + y + z) / 3.0;
  }
}
