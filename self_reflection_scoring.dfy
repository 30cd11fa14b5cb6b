/** tlm/utils/scoring/self_reflection_scoring_utils.py: one score per
    self-reflection completion, reshaped column-major into one row per
    reference answer and averaged NaN-safely. */
module SelfReflectionScoring {
  import opened Wrappers
  import opened Types
  import opened Completions
  import opened MathUtils
  import opened ParseUtils

  /** _generate_self_reflection_score. `parseFailureScore` is the configured
      SELF_REFLECTION_PARSE_FAILURE_SCORE. */
  function ReflectionScore(o: Outcome, parseFailureScore: real): Score
  {
    match o
    case Failure(f) => if f.kind == Some(Parse) then Some(parseFailureScore) else None
    case Success(c) =>
      var confidence := ChoiceTokenConfidence(c);
      if confidence.Some? then confidence else MappedScoreOf(c)
  }

  /** The score is chosen by the documented priority: the parse-failure
      setting for a PARSE failure, NaN for any other failure, and for a
      success the token confidence when there is one, else the mapped score,
      else NaN. */
  lemma ReflectionScoreCases(o: Outcome, parseFailureScore: real)
    ensures o.Failure? && o.failure.kind == Some(Parse) ==> ReflectionScore(o, parseFailureScore) == Some(parseFailureScore)
    ensures o.Failure? && o.failure.kind != Some(Parse) ==> ReflectionScore(o, parseFailureScore).None?
    ensures o.Success? && ChoiceTokenConfidence(o.completion).Some?
      ==> ReflectionScore(o, parseFailureScore) == ChoiceTokenConfidence(o.completion)
    ensures o.Success? && ChoiceTokenConfidence(o.completion).None? && MappedScoreOf(o.completion).Some?
      ==> ReflectionScore(o, parseFailureScore) == MappedScoreOf(o.completion)
    ensures o.Success? && ChoiceTokenConfidence(o.completion).None? && MappedScoreOf(o.completion).None?
      ==> ReflectionScore(o, parseFailureScore).None?
  {
  }

  /** A completion's mapped score, when present, is a probability. */
  predicate MappedInUnit(c: CompletionData) {
    MappedScoreOf(c).Some? ==> 0.0 <= MappedScoreOf(c).value <= 1.0
  }

  /** Token probabilities are probabilities. */
  predicate ProbsInUnit(c: CompletionData) {
    c.logprobs.Some? ==> forall i :: 0 <= i < |c.logprobs.value| ==> 0.0 <= c.logprobs.value[i].prob <= 1.0
  }

  /** A successful completion carries probabilities only. */
  predicate OutcomeInUnit(o: Outcome) {
    o.Success? ==> MappedInUnit(o.completion) && ProbsInUnit(o.completion)
  }

  /** Per-completion scores lie in [0,1] when the parse-failure setting, the
      mapped score and the token probabilities do. */
  lemma ReflectionScoreInUnit(o: Outcome, parseFailureScore: real)
    requires 0.0 <= parseFailureScore <= 1.0
    requires OutcomeInUnit(o)
    ensures ReflectionScore(o, parseFailureScore).Some? ==> 0.0 <= ReflectionScore(o, parseFailureScore).value <= 1.0
  {
    if o.Success? {
      ChoiceTokenConfidenceInUnit(o.completion);
    }
  }

  // ---------------------------------------------------------------------
  // Column-major reshape

  /** The transpose of a matrix whose rows have `width` entries. */
  function Transpose<T>(m: seq<seq<T>>, width: nat): (t: seq<seq<T>>)
    requires IsMatrix(m, width)
    ensures |t| == width && IsMatrix(t, |m|)
    ensures forall i, c :: 0 <= i < width && 0 <= c < |m| ==> t[i][c] == m[c][i]
  {
    seq(width, i requires 0 <= i < width => seq(|m|, c requires 0 <= c < |m| => m[c][i]))
  }

  /** numpy's `flat.reshape(n, -1, order="F")`: a ValueError when `n` is 0
      (even for an empty array, where the -1 is ambiguous) or does not divide
      the length; otherwise the flat list is laid out column by column. */
  function ReshapeColumnMajor<T>(flat: seq<T>, n: nat): (r: Result<seq<seq<T>>>)
    ensures r.Ok? <==> n > 0 && |flat| % n == 0
    ensures r.Ok? ==> |r.value| == n && IsMatrix(r.value, |flat| / n)
  {
    if n == 0 || |flat| % n != 0 then Err("ValueError: cannot reshape array into shape (n, -1)")
    else Ok(Transpose(Rows(flat, |flat| / n, n), n))
  }

  /** Euclidean division of an index below cols * n by n. */
  lemma DivModBelow(k: nat, n: nat, cols: nat)
    requires n > 0 && k < cols * n
    ensures 0 <= k % n < n && k / n < cols && (k / n) * n + k % n == k
  {
    var q, r := k / n, k % n;
    assert k == q * n + r;
    if q >= cols {
      MulLe(cols, q, n);
    }
  }

  lemma MulLe(a: nat, b: nat, n: nat)
    requires a <= b
    ensures a * n <= b * n
  {
    assert b * n == a * n + (b - a) * n;
  }

  /** Flat index k lands in row k mod n, column k div n. */
  lemma ReshapeColumnMajorAt<T>(flat: seq<T>, n: nat, k: nat)
    requires n > 0 && |flat| % n == 0 && k < |flat|
    ensures k % n < n && k / n < |flat| / n
    ensures ReshapeColumnMajor(flat, n).value[k % n][k / n] == flat[k]
  {
    var cols := |flat| / n;
    var m := Rows(flat, cols, n);
    var i, c := k % n, k / n;
    DivModBelow(k, n, cols);
    FlattenAt(m, n, c, i);
    assert ReshapeColumnMajor(flat, n).value == Transpose(m, n);
  }

  /** With a single row, the reshape is the flat list itself. */
  lemma ReshapeOneRow<T>(flat: seq<T>)
    ensures ReshapeColumnMajor(flat, 1) == Ok([flat])
  {
    var cols := |flat|;
    assert |flat| / 1 == cols;
    var m := Rows(flat, cols, 1);
    var r := Transpose(m, 1);
    assert ReshapeColumnMajor(flat, 1).value == r;
    forall c | 0 <= c < cols
      ensures r[0][c] == flat[c]
    {
      FlattenAt(m, 1, c, 0);
      assert c * 1 + 0 == c;
    }
    assert |r[0]| == |flat|;
    assert r[0] == flat;
    assert |r| == 1;
    assert r == [r[0]];
  }

  /** With a single column, row i is the one-entry list [flat[i]]. */
  lemma ReshapeOneColumn<T>(flat: seq<T>)
    requires |flat| > 0
    ensures var r := ReshapeColumnMajor(flat, |flat|);
      r.Ok? && |r.value| == |flat| && forall i :: 0 <= i < |flat| ==> r.value[i] == [flat[i]]
  {
    var n := |flat|;
    assert n / n == 1 && n % n == 0;
    var m := Rows(flat, 1, n);
    assert Flatten(m) == m[0] + Flatten(m[1..]);
    assert m[0] == flat;
    var r := Transpose(m, n);
    assert ReshapeColumnMajor(flat, n).value == r;
    forall i | 0 <= i < n
      ensures r[i] == [flat[i]]
    {
    }
  }

  /** Every cell of the reshaped matrix is some entry of the flat list. */
  lemma ReshapeCellFrom<T>(flat: seq<T>, n: nat, i: nat, j: nat) returns (k: nat)
    requires n > 0 && |flat| % n == 0 && i < n && j < |flat| / n
    ensures k < |flat| && ReshapeColumnMajor(flat, n).value[i][j] == flat[k]
  {
    var cols := |flat| / n;
    var m := Rows(flat, cols, n);
    FlattenAt(m, n, j, i);
    k := j * n + i;
    assert ReshapeColumnMajor(flat, n).value == Transpose(m, n);
  }

  /** The 2 x 2 case written out: [a, b, c, d] becomes [[a, c], [b, d]]. */
  lemma ReshapeTwoByTwo<T>(a: T, b: T, c: T, d: T)
    ensures ReshapeColumnMajor([a, b, c, d], 2) == Ok([[a, c], [b, d]])
  {
    var flat := [a, b, c, d];
    assert |flat| / 2 == 2 && |flat| % 2 == 0;
    var m := [[a, b], [c, d]];
    FlattenTwoByTwo(a, b, c, d);
    RowsOfFlatten(m, 2);
    var t := Transpose(m, 2);
    assert t[0] == [a, c] && t[1] == [b, d];
    assert t == [[a, c], [b, d]];
    assert ReshapeColumnMajor(flat, 2).value == Transpose(m, 2);
  }

  // ---------------------------------------------------------------------
  // generate_self_reflection_scores

  /** The per-completion scores, in input order. */
  function ReflectionScores(outcomes: seq<Outcome>, parseFailureScore: real): (s: seq<Score>)
    ensures |s| == |outcomes|
  {
    seq(|outcomes|, i requires 0 <= i < |outcomes| => ReflectionScore(outcomes[i], parseFailureScore))
  }

  /** generate_self_reflection_scores: `referenceCount` rows, each averaged
      NaN-safely; numpy's reshape error surfaces as `Err`. */
  function SelfReflectionScores(referenceCount: nat, outcomes: seq<Outcome>, parseFailureScore: real): Result<seq<Score>>
  {
    var rows :- ReshapeColumnMajor(ReflectionScores(outcomes, parseFailureScore), referenceCount);
    Ok(NanSafeMean(rows, Some(referenceCount)))
  }

  /** The call fails exactly when there are no reference answers or their
      number does not divide the number of completions; otherwise it yields
      one score per reference answer, each NaN or in [0,1] under the
      assumptions of ReflectionScoreInUnit. */
  lemma SelfReflectionScoresSpec(referenceCount: nat, outcomes: seq<Outcome>, parseFailureScore: real)
    requires 0.0 <= parseFailureScore <= 1.0
    requires forall i :: 0 <= i < |outcomes| ==> OutcomeInUnit(outcomes[i])
    ensures var r := SelfReflectionScores(referenceCount, outcomes, parseFailureScore);
      r.Ok? <==> referenceCount > 0 && |outcomes| % referenceCount == 0
    ensures var r := SelfReflectionScores(referenceCount, outcomes, parseFailureScore);
      r.Ok? ==> |r.value| == referenceCount
    ensures var r := SelfReflectionScores(referenceCount, outcomes, parseFailureScore);
      r.Ok? ==> forall i :: 0 <= i < |r.value| && r.value[i].Some? ==> 0.0 <= r.value[i].value <= 1.0
  {
    var scores := ReflectionScores(outcomes, parseFailureScore);
    forall i | 0 <= i < |outcomes|
      ensures scores[i].Some? ==> 0.0 <= scores[i].value <= 1.0
    {
      ReflectionScoreInUnit(outcomes[i], parseFailureScore);
    }
    var rows := ReshapeColumnMajor(scores, referenceCount);
    if rows.Ok? {
      var m: seq<seq<Score>> := rows.value;
      forall i, j | 0 <= i < |m| && 0 <= j < |m[i]| && m[i][j].Some?
        ensures 0.0 <= m[i][j].value <= 1.0
      {
        var k := ReshapeCellFrom(scores, referenceCount, i, j);
      }
      NanSafeMeanInUnit(m, Some(referenceCount));
    }
  }

  /** Score i gathers the flat positions congruent to i modulo the number
      of reference answers: position k feeds row k mod n. */
  lemma SelfReflectionRowSource(referenceCount: nat, outcomes: seq<Outcome>, parseFailureScore: real, k: nat)
    requires referenceCount > 0 && |outcomes| % referenceCount == 0 && k < |outcomes|
    ensures ReshapeColumnMajor(ReflectionScores(outcomes, parseFailureScore), referenceCount).Ok?
    ensures k % referenceCount < referenceCount && k / referenceCount < |outcomes| / referenceCount
    ensures var rows := ReshapeColumnMajor(ReflectionScores(outcomes, parseFailureScore), referenceCount).value;
      rows[k % referenceCount][k / referenceCount] == ReflectionScore(outcomes[k], parseFailureScore)
  {
    ReshapeColumnMajorAt(ReflectionScores(outcomes, parseFailureScore), referenceCount, k);
  }

  /** The matrix a caller intends: row a holds answer a's reflections. */
  function IntendedScores(nested: seq<seq<Outcome>>, parseFailureScore: real): (r: seq<Score>)
    ensures |r| == |nested|
  {
    NanSafeMean(seq(|nested|, a requires 0 <= a < |nested| => ReflectionScores(nested[a], parseFailureScore)), Some(|nested|))
  }

  /** ReflectionScores distributes over an answer-major flattening. */
  lemma {:induction false} ReflectionScoresFlatten(nested: seq<seq<Outcome>>, parseFailureScore: real)
    ensures ReflectionScores(Flatten(nested), parseFailureScore)
      == Flatten(seq(|nested|, a requires 0 <= a < |nested| => ReflectionScores(nested[a], parseFailureScore)))
  {
    var m := seq(|nested|, a requires 0 <= a < |nested| => ReflectionScores(nested[a], parseFailureScore));
    if nested != [] {
      ReflectionScoresFlatten(nested[1..], parseFailureScore);
      var tail := seq(|nested[1..]|, a requires 0 <= a < |nested[1..]| => ReflectionScores(nested[1..][a], parseFailureScore));
      assert tail == m[1..];
      assert Flatten(nested) == nested[0] + Flatten(nested[1..]);
      var lhs := ReflectionScores(Flatten(nested), parseFailureScore);
      var rhs := m[0] + Flatten(tail);
      assert |lhs| == |rhs|;
      forall k | 0 <= k < |lhs|
        ensures lhs[k] == rhs[k]
      {
        if k < |nested[0]| {
          assert Flatten(nested)[k] == nested[0][k];
        } else {
          assert Flatten(nested)[k] == Flatten(nested[1..])[k - |nested[0]|];
        }
      }
    }
  }

  /** With one reference answer, or one reflection template per answer, the
      column-major reshape of the answer-major flattening puts exactly answer
      i's reflections in row i, so the scores are the intended per-answer
      means. */
  lemma SelfReflectionAligned(nested: seq<seq<Outcome>>, templates: nat, parseFailureScore: real)
    requires |nested| > 0 && IsMatrix(nested, templates)
    requires |nested| == 1 || templates == 1
    ensures SelfReflectionScores(|nested|, Flatten(nested), parseFailureScore) == Ok(IntendedScores(nested, parseFailureScore))
  {
    var n := |nested|;
    var m := seq(n, a requires 0 <= a < n => ReflectionScores(nested[a], parseFailureScore));
    ReflectionScoresFlatten(nested, parseFailureScore);
    assert IsMatrix(m, templates);
    ReshapeAligned(m, templates);
    assert ReshapeColumnMajor(ReflectionScores(Flatten(nested), parseFailureScore), n) == Ok(m);
  }

  /** A single row, or a single column, survives the flatten-then-reshape
      round trip unchanged. */
  lemma ReshapeAligned<T>(m: seq<seq<T>>, cols: nat)
    requires |m| > 0 && IsMatrix(m, cols)
    requires |m| == 1 || cols == 1
    ensures ReshapeColumnMajor(Flatten(m), |m|) == Ok(m)
  {
    if |m| == 1 {
      ReshapeAlignedRow(m);
    } else {
      ReshapeAlignedColumn(m);
    }
  }

  lemma ReshapeAlignedRow<T>(m: seq<seq<T>>)
    requires |m| == 1
    ensures ReshapeColumnMajor(Flatten(m), 1) == Ok(m)
  {
    var flat := Flatten(m);
    assert flat == m[0] + Flatten(m[1..]);
    assert m[1..] == [] && Flatten(m[1..]) == [];
    assert flat == m[0];
    ReshapeOneRow(flat);
    assert [flat] == m;
  }

  lemma ReshapeAlignedColumn<T>(m: seq<seq<T>>)
    requires |m| > 0 && IsMatrix(m, 1)
    ensures ReshapeColumnMajor(Flatten(m), |m|) == Ok(m)
  {
    var flat := Flatten(m);
    FlattenLength(m, 1);
    assert |flat| == |m|;
    ReshapeOneColumn(flat);
    var r := ReshapeColumnMajor(flat, |m|).value;
    forall i | 0 <= i < |m|
      ensures r[i] == m[i]
    {
      FlattenAt(m, 1, i, 0);
      assert i * 1 + 0 == i;
      assert |m[i]| == 1;
    }
    assert r == m;
  }

  /** With two answers and two templates the rows mix answers: if answer 0's
      reflections both score 1.0 and answer 1's both 0.0, each reference
      answer scores 0.5 rather than 1.0 and 0.0. */
  lemma SelfReflectionMixesAnswers(good: Outcome, bad: Outcome, parseFailureScore: real)
    requires ReflectionScore(good, parseFailureScore) == Some(1.0)
    requires ReflectionScore(bad, parseFailureScore) == Some(0.0)
    ensures SelfReflectionScores(2, Flatten([[good, good], [bad, bad]]), parseFailureScore) == Ok([Some(0.5), Some(0.5)])
    ensures IntendedScores([[good, good], [bad, bad]], parseFailureScore) == [Some(1.0), Some(0.0)]
  {
    var nested := [[good, good], [bad, bad]];
    FlattenTwoByTwo(good, good, bad, bad);
    var scores := ReflectionScores([good, good, bad, bad], parseFailureScore);
    assert scores == [Some(1.0), Some(1.0), Some(0.0), Some(0.0)];
    ReshapeTwoByTwo(Some(1.0), Some(1.0), Some(0.0), Some(0.0));
    MixedMean();
    var one := ReflectionScores([good, good], parseFailureScore);
    var zero := ReflectionScores([bad, bad], parseFailureScore);
    assert one == [Some(1.0), Some(1.0)];
    assert zero == [Some(0.0), Some(0.0)];
    var intended := seq(2, a requires 0 <= a < 2 => ReflectionScores(nested[a], parseFailureScore));
    assert intended == [one, zero];
    IntendedMean();
  }

  lemma FlattenTwoByTwo<T>(a: T, b: T, c: T, d: T)
    ensures Flatten([[a, b], [c, d]]) == [a, b, c, d]
  {
    var m := [[a, b], [c, d]];
    assert Flatten(m) == [a, b] + Flatten(m[1..]);
    assert Flatten(m[1..]) == [c, d] + Flatten(m[1..][1..]);
  }

  lemma MixedMean()
    ensures NanSafeMean([[Some(1.0), Some(0.0)], [Some(1.0), Some(0.0)]], Some(2)) == [Some(0.5), Some(0.5)]
  {
    var m: seq<seq<Score>> := [[Some(1.0), Some(0.0)], [Some(1.0), Some(0.0)]];
    assert m[0][0].Some?;
    MixedRowMean();
  }

  lemma IntendedMean()
    ensures NanSafeMean([[Some(1.0), Some(1.0)], [Some(0.0), Some(0.0)]], Some(2)) == [Some(1.0), Some(0.0)]
  {
    var m: seq<seq<Score>> := [[Some(1.0), Some(1.0)], [Some(0.0), Some(0.0)]];
    assert m[0][0].Some?;
    ConstantRowMean(1.0);
    ConstantRowMean(0.0);
  }

  lemma MixedRowMean()
    ensures RowMean([Some(1.0), Some(0.0)]) == Some(0.5)
  {
    var row: seq<Score> := [Some(1.0), Some(0.0)];
    assert ValidValues(row[1..]) == [0.0] by {
      assert row[1..][1..] == [];
    }
    assert ValidValues(row) == [1.0, 0.0];
    assert Sum([1.0, 0.0]) == 1.0 + Sum([0.0]);
    assert Sum([0.0]) == 0.0 + Sum([]);
  }

  lemma ConstantRowMean(x: real)
    ensures RowMean([Some(x), Some(x)]) == Some(x)
  {
    var row: seq<Score> := [Some(x), Some(x)];
    assert ValidValues(row[1..]) == [x] by {
      assert row[1..][1..] == [];
    }
    assert ValidValues(row) == [x, x];
    assert Sum([x, x]) == x + Sum([x]);
    assert Sum([x]) == x + Sum([]);
  }
}
