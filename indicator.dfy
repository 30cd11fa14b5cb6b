/** tlm/utils/scoring/indicator_scoring_utils.py: for each reference answer,
    the fraction of comparison answers exactly equal to it. Answers are the
    raw values stored on completions (JNull for a failed comparison). */
module Indicator {
  import opened Wrappers
  import opened Json
  import opened MathUtils

  /** Row `x` of the equality mask: 1.0 where a comparison answer equals `x`. */
  function IndicatorRow(x: Json, comps: seq<Json>): (row: seq<Score>)
    ensures |row| == |comps|
    ensures forall j :: 0 <= j < |comps| ==> row[j] == Some(if x == comps[j] then 1.0 else 0.0)
  {
    if comps == [] then [] else [Some(if x == comps[0] then 1.0 else 0.0)] + IndicatorRow(x, comps[1..])
  }

  /** The broadcast comparison `refs[:, None] == comps[None, :]`. */
  function IndicatorMask(refs: seq<Json>, comps: seq<Json>): (mask: seq<seq<Score>>)
    ensures |mask| == |refs| && IsMatrix(mask, |comps|)
  {
    seq(|refs|, i requires 0 <= i < |refs| => IndicatorRow(refs[i], comps))
  }

  /** compute_indicator_scores: the NaN-safe row means (expected length
      |refs|) and the row-major flattened mask. */
  function ComputeIndicatorScores(refs: seq<Json>, comps: seq<Json>): ScoreArrays
  {
    var mask := IndicatorMask(refs, comps);
    ScoreArrays(NanSafeMean(mask, Some(|refs|)), Flatten(mask))
  }

  /** A row of the mask has no NaN, and its entries add up to the number of
      comparison answers equal to `x`. */
  lemma {:induction false} IndicatorRowSum(x: Json, comps: seq<Json>)
    ensures ValidValues(IndicatorRow(x, comps)) != [] <==> comps != []
    ensures |ValidValues(IndicatorRow(x, comps))| == |comps|
    ensures Sum(ValidValues(IndicatorRow(x, comps))) == multiset(comps)[x] as real
    decreases |comps|
  {
    if comps != [] {
      IndicatorRowSum(x, comps[1..]);
      var row := IndicatorRow(x, comps);
      assert row[0].Some? && row[1..] == IndicatorRow(x, comps[1..]);
      assert comps == [comps[0]] + comps[1..];
      assert multiset(comps) == multiset{comps[0]} + multiset(comps[1..]);
    }
  }

  /** The flat output has |refs| * |comps| entries. */
  lemma IndicatorFlatLength(refs: seq<Json>, comps: seq<Json>)
    ensures |ComputeIndicatorScores(refs, comps).flat| == |refs| * |comps|
  {
    FlattenLength(IndicatorMask(refs, comps), |comps|);
  }

  /** In row-major order, entry (i, j) of the flat output is 1.0 exactly when
      reference answer i equals comparison answer j, and 0.0 otherwise. */
  lemma IndicatorFlatAt(refs: seq<Json>, comps: seq<Json>, i: nat, j: nat)
    requires i < |refs| && j < |comps|
    ensures i * |comps| + j < |ComputeIndicatorScores(refs, comps).flat|
    ensures ComputeIndicatorScores(refs, comps).flat[i * |comps| + j] == Some(if refs[i] == comps[j] then 1.0 else 0.0)
  {
    var mask := IndicatorMask(refs, comps);
    FlattenAt(mask, |comps|, i, j);
    assert mask[i] == IndicatorRow(refs[i], comps);
  }

  /** With at least one comparison answer there is one mean per reference
      answer, and mean i is the fraction of comparison answers equal to
      reference answer i, so it lies in [0, 1]. */
  lemma IndicatorMeans(refs: seq<Json>, comps: seq<Json>, i: nat)
    requires |comps| > 0 && i < |refs|
    ensures |ComputeIndicatorScores(refs, comps).means| == |refs|
    ensures ComputeIndicatorScores(refs, comps).means[i] == Some(multiset(comps)[refs[i]] as real / |comps| as real)
    ensures 0.0 <= ComputeIndicatorScores(refs, comps).means[i].value <= 1.0
  {
    var mask := IndicatorMask(refs, comps);
    assert mask[i] == IndicatorRow(refs[i], comps);
    assert mask[i][0].Some?;
    assert !AllNaN(mask);
    IndicatorRowSum(refs[i], comps);
    RowMeanBounds(mask[i], 0.0, 1.0);
  }

  /** With no comparison answers every row is empty, so the all-NaN branch
      gives |refs| NaNs and an empty flat mask. */
  lemma IndicatorNoComparisons(refs: seq<Json>)
    ensures var r := ComputeIndicatorScores(refs, []);
      |r.means| == |refs| && (forall i :: 0 <= i < |refs| ==> r.means[i].None?) && r.flat == []
  {
    var mask := IndicatorMask(refs, []);
    FlattenLength(mask, 0);
  }
}
