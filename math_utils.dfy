/** Statistical primitives of tlm/utils/math_utils.py over `real`.
    A score is `Option<real>`; `None` is NaN. */
module MathUtils {
  import opened Wrappers

  /** A float that may be NaN. */
  type Score = Option<real>

  /** ASYMPTOTIC_EPSILON. */
  const Epsilon: real := 0.001
  /** ASYMPTOTIC_SCALE = 1 - 2 * epsilon. */
  const Scale: real := 1.0 - 2.0 * Epsilon

  // ---------------------------------------------------------------------
  // Sums and means

  function Sum(xs: seq<real>): real
  {
    if xs == [] then 0.0 else xs[0] + Sum(xs[1..])
  }

  lemma {:induction false} SumAppend(xs: seq<real>, ys: seq<real>)
    ensures Sum(xs + ys) == Sum(xs) + Sum(ys)
  {
    if xs == [] {
      assert xs + ys == ys;
    } else {
      assert (xs + ys)[0] == xs[0];
      assert (xs + ys)[1..] == xs[1..] + ys;
      SumAppend(xs[1..], ys);
    }
  }

  lemma {:induction false} SumBounds(xs: seq<real>, lo: real, hi: real)
    requires forall i :: 0 <= i < |xs| ==> lo <= xs[i] <= hi
    ensures lo * |xs| as real <= Sum(xs) <= hi * |xs| as real
  {
    if xs != [] {
      SumBounds(xs[1..], lo, hi);
    }
  }

  /** Arithmetic mean of a non-empty list (np.mean). */
  function Mean(xs: seq<real>): real
    requires |xs| > 0
  {
    Sum(xs) / |xs| as real
  }

  lemma MeanBounds(xs: seq<real>, lo: real, hi: real)
    requires |xs| > 0
    requires forall i :: 0 <= i < |xs| ==> lo <= xs[i] <= hi
    ensures lo <= Mean(xs) <= hi
  {
    SumBounds(xs, lo, hi);
    var n := |xs| as real;
    assert lo * n <= Sum(xs) <= hi * n;
    assert Mean(xs) == Sum(xs) / n;
  }

  /** The non-NaN entries of a row, in order. */
  function ValidValues(row: seq<Score>): (vs: seq<real>)
    ensures |vs| <= |row|
  {
    if row == [] then []
    else (if row[0].Some? then [row[0].value] else []) + ValidValues(row[1..])
  }

  /** np.nanmean of one row: NaN when the row has no non-NaN entry. */
  function RowMean(row: seq<Score>): Score
  {
    var vs := ValidValues(row);
    if vs == [] then None else Some(Mean(vs))
  }

  predicate AllNaN(matrix: seq<seq<Score>>) {
    forall i, j :: 0 <= i < |matrix| && 0 <= j < |matrix[i]| ==> matrix[i][j].None?
  }

  /** get_nan_safe_mean along axis 1: the row means unless every entry is NaN
      (an empty matrix included), in which case a NaN vector of the expected
      length, or a single NaN when none is given. */
  function NanSafeMean(matrix: seq<seq<Score>>, expectedLength: Option<nat>): (r: seq<Score>)
    ensures !AllNaN(matrix) ==> |r| == |matrix|
    ensures AllNaN(matrix) ==> forall i :: 0 <= i < |r| ==> r[i].None?
    ensures AllNaN(matrix) ==> |r| == expectedLength.GetOr(1)
  {
    if !AllNaN(matrix) then seq(|matrix|, i requires 0 <= i < |matrix| => RowMean(matrix[i]))
    else seq(expectedLength.GetOr(1), _ => None)
  }

  lemma {:induction false} ValidValuesBounds(row: seq<Score>, lo: real, hi: real)
    requires forall i :: 0 <= i < |row| && row[i].Some? ==> lo <= row[i].value <= hi
    ensures forall x :: x in ValidValues(row) ==> lo <= x <= hi
  {
    if row != [] {
      ValidValuesBounds(row[1..], lo, hi);
    }
  }

  /** A row mean lies between the smallest and largest non-NaN entries. */
  lemma RowMeanBounds(row: seq<Score>, lo: real, hi: real)
    requires forall i :: 0 <= i < |row| && row[i].Some? ==> lo <= row[i].value <= hi
    ensures RowMean(row).Some? ==> lo <= RowMean(row).value <= hi
  {
    var vs := ValidValues(row);
    if vs != [] {
      ValidValuesBounds(row, lo, hi);
      assert forall i :: 0 <= i < |vs| ==> vs[i] in vs;
      MeanBounds(vs, lo, hi);
    }
  }

  /** Every entry of the NaN-safe mean of a matrix of [0,1] scores is NaN or in [0,1]. */
  lemma NanSafeMeanInUnit(matrix: seq<seq<Score>>, expectedLength: Option<nat>)
    requires forall i, j :: 0 <= i < |matrix| && 0 <= j < |matrix[i]| && matrix[i][j].Some? ==> 0.0 <= matrix[i][j].value <= 1.0
    ensures forall k :: 0 <= k < |NanSafeMean(matrix, expectedLength)| && NanSafeMean(matrix, expectedLength)[k].Some? ==>
      0.0 <= NanSafeMean(matrix, expectedLength)[k].value <= 1.0
  {
    if !AllNaN(matrix) {
      forall k | 0 <= k < |matrix|
        ensures RowMean(matrix[k]).Some? ==> 0.0 <= RowMean(matrix[k]).value <= 1.0
      {
        RowMeanBounds(matrix[k], 0.0, 1.0);
      }
    }
  }

  /** The unit-test row [2,3,1,NaN] has NaN-safe mean 2. */
  lemma RowMeanExample()
    ensures RowMean([Some(2.0), Some(3.0), Some(1.0), None]) == Some(2.0)
  {
    var a: seq<Score> := [Some(2.0), Some(3.0), Some(1.0), None];
    assert a[1..][1..][1..][1..] == [];
    assert ValidValues(a[1..][1..][1..]) == [];
    assert ValidValues(a[1..][1..]) == [1.0];
    assert ValidValues(a[1..]) == [3.0, 1.0];
    assert ValidValues(a) == [2.0, 3.0, 1.0];
    var v := [2.0, 3.0, 1.0];
    assert v[1..][1..][1..] == [];
    assert Sum(v[1..][1..]) == 1.0;
    assert Sum(v[1..]) == 4.0;
    assert Sum(v) == 6.0;
  }

  // ---------------------------------------------------------------------
  // Median index selection

  /** The positions of the non-NaN entries of a row, increasing. */
  function ValidIndices(row: seq<Score>, from: nat): (idxs: seq<nat>)
    requires from <= |row|
    ensures forall k :: 0 <= k < |idxs| ==> from <= idxs[k] < |row| && row[idxs[k]].Some?
    ensures forall i :: from <= i < |row| && row[i].Some? ==> i in idxs
    decreases |row| - from
  {
    if from == |row| then []
    else (if row[from].Some? then [from] else []) + ValidIndices(row, from + 1)
  }

  predicate Points(row: seq<Score>, idxs: seq<nat>) {
    forall k :: 0 <= k < |idxs| ==> idxs[k] < |row| && row[idxs[k]].Some?
  }

  /** Number of entries among `idxs` whose value is below `v`. */
  function CountBelow(row: seq<Score>, idxs: seq<nat>, v: real): nat
    requires Points(row, idxs)
  {
    if idxs == [] then 0
    else (if row[idxs[0]].value < v then 1 else 0) + CountBelow(row, idxs[1..], v)
  }

  /** Number of entries among `idxs` whose value is at most `v`. */
  function CountAtMost(row: seq<Score>, idxs: seq<nat>, v: real): nat
    requires Points(row, idxs)
  {
    if idxs == [] then 0
    else (if row[idxs[0]].value <= v then 1 else 0) + CountAtMost(row, idxs[1..], v)
  }

  /** Position in `idxs` of the first smallest value. */
  function FirstMinPos(row: seq<Score>, idxs: seq<nat>): (p: nat)
    requires Points(row, idxs) && |idxs| > 0
    ensures p < |idxs|
    ensures forall k :: 0 <= k < |idxs| ==> row[idxs[p]].value <= row[idxs[k]].value
  {
    if |idxs| == 1 then 0
    else
      var q := FirstMinPos(row, idxs[1..]);
      if row[idxs[0]].value <= row[idxs[q + 1]].value then 0 else q + 1
  }

  /** The entry a stable sort would put at position `t`: remove the first
      minimum `t` times, then take the first minimum. */
  function SelectStable(row: seq<Score>, idxs: seq<nat>, t: nat): (j: nat)
    requires Points(row, idxs) && t < |idxs|
    ensures j < |row| && row[j].Some?
    decreases t
  {
    var p := FirstMinPos(row, idxs);
    if t == 0 then idxs[p]
    else SelectStable(row, idxs[..p] + idxs[p + 1..], t - 1)
  }

  lemma {:induction false} CountSplit(row: seq<Score>, a: seq<nat>, b: seq<nat>, v: real)
    requires Points(row, a) && Points(row, b)
    ensures Points(row, a + b)
    ensures CountBelow(row, a + b, v) == CountBelow(row, a, v) + CountBelow(row, b, v)
    ensures CountAtMost(row, a + b, v) == CountAtMost(row, a, v) + CountAtMost(row, b, v)
  {
    if a != [] {
      assert (a + b)[0] == a[0];
      assert (a + b)[1..] == a[1..] + b;
      CountSplit(row, a[1..], b, v);
    } else {
      assert a + b == b;
    }
  }

  lemma CountAtMostPositive(row: seq<Score>, idxs: seq<nat>, p: nat)
    requires Points(row, idxs) && p < |idxs|
    ensures CountAtMost(row, idxs, row[idxs[p]].value) >= 1
  {
    var v := row[idxs[p]].value;
    assert idxs == idxs[..p] + idxs[p..];
    CountSplit(row, idxs[..p], idxs[p..], v);
  }

  lemma CountBelowMinIsZero(row: seq<Score>, idxs: seq<nat>, v: real)
    requires Points(row, idxs)
    requires forall k :: 0 <= k < |idxs| ==> v <= row[idxs[k]].value
    ensures CountBelow(row, idxs, v) == 0
  {
    if idxs != [] {
      CountBelowMinIsZero(row, idxs[1..], v);
    }
  }

  /** Removing the entry at position `p` removes its contribution to both counts. */
  lemma CountRemove(row: seq<Score>, idxs: seq<nat>, p: nat, v: real)
    requires Points(row, idxs) && p < |idxs|
    ensures Points(row, idxs[..p] + idxs[p + 1..])
    ensures CountBelow(row, idxs, v) ==
      CountBelow(row, idxs[..p] + idxs[p + 1..], v) + (if row[idxs[p]].value < v then 1 else 0)
    ensures CountAtMost(row, idxs, v) ==
      CountAtMost(row, idxs[..p] + idxs[p + 1..], v) + (if row[idxs[p]].value <= v then 1 else 0)
  {
    var a, m, b := idxs[..p], idxs[p..], idxs[p + 1..];
    PointsSlice(row, idxs, 0, p);
    PointsSlice(row, idxs, p, |idxs|);
    PointsSlice(row, idxs, p + 1, |idxs|);
    assert m == [idxs[p]] + b;
    CountSplit(row, [idxs[p]], b, v);
    assert idxs == a + m;
    CountSplit(row, a, m, v);
    CountSplit(row, a, b, v);
  }

  /** A slice of in-range indices is in range. */
  lemma PointsSlice(row: seq<Score>, idxs: seq<nat>, i: nat, j: nat)
    requires Points(row, idxs) && i <= j <= |idxs|
    ensures Points(row, idxs[i..j])
  {
    forall k | 0 <= k < j - i
      ensures idxs[i..j][k] < |row| && row[idxs[i..j][k]].Some?
    {
      assert idxs[i..j][k] == idxs[i + k];
    }
  }

  /** Putting back a smallest entry raises the rank of every value by one. */
  lemma RankAfterRemoval(row: seq<Score>, idxs: seq<nat>, p: nat, v: real, t: nat)
    requires Points(row, idxs) && p < |idxs| && 0 < t
    requires row[idxs[p]].value <= v
    ensures Points(row, idxs[..p] + idxs[p + 1..])
    ensures CountBelow(row, idxs[..p] + idxs[p + 1..], v) <= t - 1 ==> CountBelow(row, idxs, v) <= t
    ensures t - 1 < CountAtMost(row, idxs[..p] + idxs[p + 1..], v) ==> t < CountAtMost(row, idxs, v)
  {
    CountRemove(row, idxs, p, v);
  }

  /** The selected entry is the t-th smallest (0-based): at most t values lie
      strictly below it, and more than t values lie at or below it. */
  lemma {:induction false} SelectStableRank(row: seq<Score>, idxs: seq<nat>, t: nat)
    requires Points(row, idxs) && t < |idxs|
    ensures row[SelectStable(row, idxs, t)].Some?
    ensures CountBelow(row, idxs, row[SelectStable(row, idxs, t)].value) <= t
    ensures t < CountAtMost(row, idxs, row[SelectStable(row, idxs, t)].value)
    decreases t
  {
    if t == 0 {
      SelectFirstRank(row, idxs);
    } else {
      var p := FirstMinPos(row, idxs);
      var rest := idxs[..p] + idxs[p + 1..];
      PointsRemove(row, idxs, p);
      SelectStableRank(row, rest, t - 1);
      SelectNextRank(row, idxs, t, p, SelectStable(row, rest, t - 1));
    }
  }

  /** The base case: selecting rank 0 picks the first minimum. */
  lemma SelectFirstRank(row: seq<Score>, idxs: seq<nat>)
    requires Points(row, idxs) && 0 < |idxs|
    ensures row[SelectStable(row, idxs, 0)].Some?
    ensures CountBelow(row, idxs, row[SelectStable(row, idxs, 0)].value) <= 0
    ensures 0 < CountAtMost(row, idxs, row[SelectStable(row, idxs, 0)].value)
  {
    assert SelectStable(row, idxs, 0) == idxs[FirstMinPos(row, idxs)];
    FirstMinRank(row, idxs);
  }

  /** The step: rank t - 1 among the rest is rank t among all. */
  lemma SelectNextRank(row: seq<Score>, idxs: seq<nat>, t: nat, p: nat, j: nat)
    requires Points(row, idxs) && 0 < t < |idxs| && p == FirstMinPos(row, idxs)
    requires Points(row, idxs[..p] + idxs[p + 1..])
    requires j == SelectStable(row, idxs[..p] + idxs[p + 1..], t - 1) && row[j].Some?
    ensures SelectStable(row, idxs, t) == j
    ensures CountBelow(row, idxs[..p] + idxs[p + 1..], row[j].value) <= t - 1 ==>
      CountBelow(row, idxs, row[j].value) <= t
    ensures t - 1 < CountAtMost(row, idxs[..p] + idxs[p + 1..], row[j].value) ==>
      t < CountAtMost(row, idxs, row[j].value)
  {
    SelectedAboveMin(row, idxs, t, p, j);
    RankAfterRemoval(row, idxs, p, row[j].value, t);
    SelectStableStep(row, idxs, t);
  }

  /** The entry selected among the rest is at least the removed minimum. */
  lemma SelectedAboveMin(row: seq<Score>, idxs: seq<nat>, t: nat, p: nat, j: nat)
    requires Points(row, idxs) && 0 < t < |idxs| && p == FirstMinPos(row, idxs)
    requires Points(row, idxs[..p] + idxs[p + 1..])
    requires j == SelectStable(row, idxs[..p] + idxs[p + 1..], t - 1)
    ensures row[j].Some? && row[idxs[p]].value <= row[j].value
  {
    SelectStableIn(row, idxs[..p] + idxs[p + 1..], t - 1);
    RemovedMember(idxs, p, j);
    MinAtMost(row, idxs, j);
  }

  lemma SelectStableStep(row: seq<Score>, idxs: seq<nat>, t: nat)
    requires Points(row, idxs) && 0 < t < |idxs|
    ensures var p := FirstMinPos(row, idxs);
      Points(row, idxs[..p] + idxs[p + 1..]) &&
      SelectStable(row, idxs, t) == SelectStable(row, idxs[..p] + idxs[p + 1..], t - 1)
  {
    PointsRemove(row, idxs, FirstMinPos(row, idxs));
  }

  /** The selected index is one of the candidates. */
  lemma {:induction false} SelectStableIn(row: seq<Score>, idxs: seq<nat>, t: nat)
    requires Points(row, idxs) && t < |idxs|
    ensures SelectStable(row, idxs, t) in idxs
    decreases t
  {
    var p := FirstMinPos(row, idxs);
    if t == 0 {
      assert SelectStable(row, idxs, t) == idxs[p];
    } else {
      var rest := idxs[..p] + idxs[p + 1..];
      PointsRemove(row, idxs, p);
      SelectStableIn(row, rest, t - 1);
      SelectStableStep(row, idxs, t);
      RemovedMember(idxs, p, SelectStable(row, rest, t - 1));
    }
  }

  lemma RemovedMember(idxs: seq<nat>, p: nat, j: nat)
    requires p < |idxs| && j in idxs[..p] + idxs[p + 1..]
    ensures j in idxs
  {
    var rest := idxs[..p] + idxs[p + 1..];
    var k :| 0 <= k < |rest| && rest[k] == j;
    if k < p { assert idxs[k] == j; } else { assert idxs[k + 1] == j; }
  }

  /** The first minimum has rank 0. */
  lemma FirstMinRank(row: seq<Score>, idxs: seq<nat>)
    requires Points(row, idxs) && |idxs| > 0
    ensures var v := row[idxs[FirstMinPos(row, idxs)]].value;
      CountBelow(row, idxs, v) == 0 < CountAtMost(row, idxs, v)
  {
    var p := FirstMinPos(row, idxs);
    CountBelowMinIsZero(row, idxs, row[idxs[p]].value);
    CountAtMostPositive(row, idxs, p);
  }

  /** Removing one position keeps every remaining index valid. */
  lemma PointsRemove(row: seq<Score>, idxs: seq<nat>, p: nat)
    requires Points(row, idxs) && p < |idxs|
    ensures Points(row, idxs[..p] + idxs[p + 1..])
  {
    var rest := idxs[..p] + idxs[p + 1..];
    forall k | 0 <= k < |rest|
      ensures rest[k] < |row| && row[rest[k]].Some?
    {
      if k < p { assert rest[k] == idxs[k]; } else { assert rest[k] == idxs[k + 1]; }
    }
  }

  /** The first minimum is at most every entry `idxs` points to. */
  lemma MinAtMost(row: seq<Score>, idxs: seq<nat>, j: nat)
    requires Points(row, idxs) && j in idxs
    ensures row[j].Some? && row[idxs[FirstMinPos(row, idxs)]].value <= row[j].value
  {
    var k :| 0 <= k < |idxs| && idxs[k] == j;
  }

  /** Index of the median non-NaN entry of a row (None when every entry is NaN). */
  function MedianIndex(row: seq<Score>): (r: Option<nat>)
    ensures r.None? <==> forall i :: 0 <= i < |row| ==> row[i].None?
    ensures r.Some? ==> r.value < |row| && row[r.value].Some?
  {
    var idxs := ValidIndices(row, 0);
    if idxs == [] then None
    else
      SelectStableRank(row, idxs, |idxs| / 2);
      Some(SelectStable(row, idxs, |idxs| / 2))
  }

  /** The median index holds the (k div 2)-th smallest of the row's k
      non-NaN values: fewer than k div 2 + 1 values lie below it, and more
      than k div 2 lie at or below it. */
  lemma MedianIndexRank(row: seq<Score>)
    requires MedianIndex(row).Some?
    ensures var idxs := ValidIndices(row, 0);
      var v := row[MedianIndex(row).value].value;
      CountBelow(row, idxs, v) <= |idxs| / 2 < CountAtMost(row, idxs, v)
  {
    var idxs := ValidIndices(row, 0);
    SelectStableRank(row, idxs, |idxs| / 2);
  }

  /** The error numpy raises when argmax meets a row with no candidate. */
  const EmptyRowError: string := "IndexError: index 0 is out of bounds for axis 0 with size 0"

  /** get_median_indices: an IndexError when some row has no non-NaN entry. */
  function MedianIndices(matrix: seq<seq<Score>>): (r: Result<seq<nat>>)
    ensures r.Ok? <==> forall i :: 0 <= i < |matrix| ==> MedianIndex(matrix[i]).Some?
    ensures r.Ok? ==> |r.value| == |matrix|
    ensures r.Ok? ==> forall i :: 0 <= i < |matrix| ==> r.value[i] < |matrix[i]| && matrix[i][r.value[i]].Some?
  {
    if forall i :: 0 <= i < |matrix| ==> MedianIndex(matrix[i]).Some? then
      var indices: seq<nat> := seq(|matrix|, i requires 0 <= i < |matrix| => MedianIndex(matrix[i]).value);
      Ok(indices)
    else Err(EmptyRowError)
  }

  /** A list holding each row's median index is the result. */
  lemma MedianIndicesOk(matrix: seq<seq<Score>>, indices: seq<nat>)
    requires |indices| == |matrix|
    requires forall k :: 0 <= k < |matrix| ==> MedianIndex(matrix[k]).Some? && indices[k] == MedianIndex(matrix[k]).value
    ensures MedianIndices(matrix) == Ok(indices)
  {
    assert indices == seq(|matrix|, k requires 0 <= k < |matrix| => MedianIndex(matrix[k]).value);
  }

  /** One row without a median makes the whole call raise. */
  lemma MedianIndicesErr(matrix: seq<seq<Score>>, i: nat)
    requires i < |matrix| && MedianIndex(matrix[i]).None?
    ensures MedianIndices(matrix) == Err(EmptyRowError)
  {
  }

  /** The loop of get_median_indices, filling one index per row. */
  method GetMedianIndices(matrix: seq<seq<Score>>) returns (r: Result<seq<nat>>)
    ensures r == MedianIndices(matrix)
  {
    var medianIndices: seq<nat> := [];
    var i := 0;
    while i < |matrix|
      invariant 0 <= i <= |matrix|
      invariant |medianIndices| == i
      invariant forall k :: 0 <= k < i ==> MedianIndex(matrix[k]).Some? && medianIndices[k] == MedianIndex(matrix[k]).value
    {
      var m := MedianIndex(matrix[i]);
      if m.None? {
        MedianIndicesErr(matrix, i);
        return Err(EmptyRowError);
      }
      medianIndices := medianIndices + [m.value];
      i := i + 1;
    }
    MedianIndicesOk(matrix, medianIndices);
    r := Ok(medianIndices);
  }

  // ---------------------------------------------------------------------
  // Row-major matrices

  /** Every row has `cols` entries. */
  predicate IsMatrix<T>(m: seq<seq<T>>, cols: nat) {
    forall i :: 0 <= i < |m| ==> |m[i]| == cols
  }

  /** ndarray.flatten(): the rows, one after another. */
  function Flatten<T>(m: seq<seq<T>>): seq<T>
  {
    if m == [] then [] else m[0] + Flatten(m[1..])
  }

  lemma MulStep(i: nat, c: nat)
    requires i > 0
    ensures i * c == c + (i - 1) * c
  {
  }

  /** A matrix of |m| rows of `cols` entries flattens to |m| * cols entries. */
  lemma {:induction false} FlattenLength<T>(m: seq<seq<T>>, cols: nat)
    requires IsMatrix(m, cols)
    ensures |Flatten(m)| == |m| * cols
  {
    if m != [] {
      FlattenLength(m[1..], cols);
      MulStep(|m|, cols);
    }
  }

  /** Entry (i, j) of a matrix with `cols` columns sits at i * cols + j of
      its flattening. */
  lemma {:induction false} FlattenAt<T>(m: seq<seq<T>>, cols: nat, i: nat, j: nat)
    requires IsMatrix(m, cols) && i < |m| && j < cols
    ensures i * cols + j < |Flatten(m)| && Flatten(m)[i * cols + j] == m[i][j]
    decreases i
  {
    var rest := Flatten(m[1..]);
    assert Flatten(m) == m[0] + rest;
    FlattenLength(m[1..], cols);
    if i > 0 {
      FlattenAt(m[1..], cols, i - 1, j);
      MulStep(i, cols);
      assert m[1..][i - 1] == m[i];
    }
  }

  /** The pair every scorer returns: one score per reference answer and the
      flat per-pair scores. */
  datatype ScoreArrays = ScoreArrays(means: seq<Score>, flat: seq<Score>)

  lemma {:induction false} MulAtLeast(n: nat, k: int)
    requires k >= 1
    ensures n * k >= n
    decreases k
  {
    if k > 1 {
      MulAtLeast(n, k - 1);
      assert n * k == n * (k - 1) + n;
    }
  }

  lemma MulDiv(n: nat, c: nat)
    requires n > 0
    ensures (n * c) % n == 0 && (n * c) / n == c
  {
    var q := (n * c) / n;
    var r := (n * c) % n;
    assert n * c == n * q + r;
    assert n * (c - q) == r;
    if q < c {
      MulAtLeast(n, c - q);
    } else if q > c {
      MulAtLeast(n, q - c);
    }
  }

  /** `rows` consecutive slices of `cols` entries each. */
  function Rows<T>(flat: seq<T>, rows: nat, cols: nat): (m: seq<seq<T>>)
    requires |flat| == rows * cols
    ensures |m| == rows && IsMatrix(m, cols) && Flatten(m) == flat
    decreases rows
  {
    if rows == 0 then []
    else
      MulStep(rows, cols);
      var m := [flat[..cols]] + Rows(flat[cols..], rows - 1, cols);
      assert m[1..] == Rows(flat[cols..], rows - 1, cols);
      assert flat == flat[..cols] + flat[cols..];
      m
  }

  /** numpy's `flat.reshape((rows, -1))`: a ValueError when `rows` is 0 or
      does not divide the length; otherwise `rows` rows of equal width that
      flatten back to `flat`. */
  function Reshape<T>(flat: seq<T>, rows: nat): (r: Result<seq<seq<T>>>)
    ensures r.Ok? <==> rows > 0 && |flat| % rows == 0
    ensures r.Ok? ==> |r.value| == rows && IsMatrix(r.value, |flat| / rows) && Flatten(r.value) == flat
  {
    if rows == 0 || |flat| % rows != 0 then Err("ValueError: cannot reshape array into shape (rows, -1)")
    else Ok(Rows(flat, rows, |flat| / rows))
  }

  /** Reshaping a row-major flattening by its row count gives the matrix back. */
  lemma {:induction false} ReshapeFlatten<T>(m: seq<seq<T>>, cols: nat)
    requires IsMatrix(m, cols) && |m| > 0
    ensures Reshape(Flatten(m), |m|) == Ok(m)
  {
    FlattenLength(m, cols);
    MulDiv(|m|, cols);
    RowsOfFlatten(m, cols);
  }

  lemma {:induction false} RowsOfFlatten<T>(m: seq<seq<T>>, cols: nat)
    requires IsMatrix(m, cols)
    ensures |Flatten(m)| == |m| * cols
    ensures Rows(Flatten(m), |m|, cols) == m
  {
    FlattenLength(m, cols);
    if m != [] {
      RowsOfFlatten(m[1..], cols);
      var f := Flatten(m);
      assert f == m[0] + Flatten(m[1..]);
      assert f[..cols] == m[0];
      assert f[cols..] == Flatten(m[1..]);
      assert m == [m[0]] + m[1..];
    }
  }

  // ---------------------------------------------------------------------
  // Boolean masks

  /** The number of set entries. */
  function CountTrue(mask: seq<bool>): (k: nat)
    ensures k <= |mask|
  {
    if mask == [] then 0
    else CountTrue(mask[..|mask| - 1]) + (if mask[|mask| - 1] then 1 else 0)
  }

  /** `xs[mask]`: the entries where the mask is set, in order. */
  function Gather<T>(xs: seq<T>, mask: seq<bool>): (r: seq<T>)
    requires |xs| == |mask|
    ensures |r| == CountTrue(mask)
  {
    if mask == [] then []
    else
      var last := |mask| - 1;
      Gather(xs[..last], mask[..last]) + (if mask[last] then [xs[last]] else [])
  }

  /** `out[mask] = values` on a vector `out` filled with `fill`. */
  function Scatter<T>(mask: seq<bool>, values: seq<T>, fill: T): (r: seq<T>)
    requires |values| == CountTrue(mask)
    ensures |r| == |mask|
  {
    if mask == [] then []
    else
      var last := |mask| - 1;
      if mask[last] then Scatter(mask[..last], values[..|values| - 1], fill) + [values[|values| - 1]]
      else Scatter(mask[..last], values, fill) + [fill]
  }

  /** Entry i of `xs[mask]` sits at the number of set entries before i. */
  lemma {:induction false} GatherAt<T>(xs: seq<T>, mask: seq<bool>, i: nat)
    requires |xs| == |mask| && i < |mask| && mask[i]
    ensures CountTrue(mask[..i]) < CountTrue(mask)
    ensures Gather(xs, mask)[CountTrue(mask[..i])] == xs[i]
  {
    var last := |mask| - 1;
    assert mask[..last][..i] == mask[..i] by { assert i <= last; }
    if i < last {
      GatherAt(xs[..last], mask[..last], i);
    }
  }

  /** A scattered vector holds value number CountTrue(mask[..i]) at a set
      position i and the fill value elsewhere. */
  lemma {:induction false} ScatterAt<T>(mask: seq<bool>, values: seq<T>, fill: T, i: nat)
    requires |values| == CountTrue(mask) && i < |mask|
    ensures mask[i] ==> CountTrue(mask[..i]) < |values|
    ensures Scatter(mask, values, fill)[i] == if mask[i] then values[CountTrue(mask[..i])] else fill
  {
    var last := |mask| - 1;
    assert mask[..last][..i] == mask[..i] by { assert i <= last; }
    if i < last {
      if mask[last] {
        ScatterAt(mask[..last], values[..|values| - 1], fill, i);
      } else {
        ScatterAt(mask[..last], values, fill, i);
      }
    }
  }

  /** Scattering and then gathering through the same mask is the identity. */
  lemma {:induction false} GatherScatter<T>(mask: seq<bool>, values: seq<T>, fill: T)
    requires |values| == CountTrue(mask)
    ensures Gather(Scatter(mask, values, fill), mask) == values
  {
    if mask != [] {
      var last := |mask| - 1;
      var s := Scatter(mask, values, fill);
      if mask[last] {
        var init := values[..|values| - 1];
        GatherScatter(mask[..last], init, fill);
        assert s[..last] == Scatter(mask[..last], init, fill);
        assert values == init + [values[|values| - 1]];
      } else {
        GatherScatter(mask[..last], values, fill);
        assert s[..last] == Scatter(mask[..last], values, fill);
      }
    }
  }

  // ---------------------------------------------------------------------
  // Rescaling, harmonic mean, cosine similarity

  /** make_score_asymptotic: maps [0,1] into [epsilon, 1 - epsilon]. */
  function MakeScoreAsymptotic(score: real): real
  {
    Epsilon + Scale * score
  }

  lemma AsymptoticRange(score: real)
    requires 0.0 <= score <= 1.0
    ensures Epsilon <= MakeScoreAsymptotic(score) <= 1.0 - Epsilon
  {
  }

  /** The rescaling is strictly increasing. */
  lemma AsymptoticMonotone(a: real, b: real)
    requires a < b
    ensures MakeScoreAsymptotic(a) < MakeScoreAsymptotic(b)
  {
  }

  /** sum(1 / (s + 1e-3) for s in scores), or a ZeroDivisionError. */
  function ReciprocalSum(scores: seq<real>): Result<real>
  {
    if scores == [] then Ok(0.0)
    else if scores[0] + Epsilon == 0.0 then Err("ZeroDivisionError: float division by zero")
    else
      var rest :- ReciprocalSum(scores[1..]);
      Ok(1.0 / (scores[0] + Epsilon) + rest)
  }

  /** harmonic_mean: 0 for an empty list, otherwise min(1, n / sum(1 / (s + 1e-3))). */
  function HarmonicMean(scores: seq<real>): (r: Result<real>)
    ensures scores == [] ==> r == Ok(0.0)
    ensures r.Ok? ==> r.value <= 1.0
  {
    if scores == [] then Ok(0.0)
    else
      var total :- ReciprocalSum(scores);
      if total == 0.0 then Err("ZeroDivisionError: float division by zero")
      else
        var h := |scores| as real / total;
        Ok(if 1.0 < h then 1.0 else h)
  }

  lemma {:induction false} ReciprocalSumPositive(scores: seq<real>)
    requires forall i :: 0 <= i < |scores| ==> 0.0 <= scores[i]
    ensures ReciprocalSum(scores).Ok?
    ensures scores != [] ==> ReciprocalSum(scores).value > 0.0
  {
    if scores != [] {
      ReciprocalSumPositive(scores[1..]);
      assert 1.0 / (scores[0] + Epsilon) > 0.0;
    }
  }

  /** On non-negative scores the harmonic mean is defined and lies in (0, 1]. */
  lemma HarmonicMeanRange(scores: seq<real>)
    requires |scores| > 0
    requires forall i :: 0 <= i < |scores| ==> 0.0 <= scores[i]
    ensures HarmonicMean(scores).Ok?
    ensures 0.0 < HarmonicMean(scores).value <= 1.0
  {
    ReciprocalSumPositive(scores);
  }

  /** The reflection-template test: harmonic_mean([1.0, 0.75, 1.0]) is about 0.901. */
  lemma HarmonicMeanExample()
    ensures HarmonicMean([1.0, 0.75, 1.0]).Ok?
    ensures 0.90 < HarmonicMean([1.0, 0.75, 1.0]).value < 0.91
  {
    var s := [1.0, 0.75, 1.0];
    assert s[1..] == [0.75, 1.0];
    assert s[1..][1..] == [1.0];
    assert ReciprocalSum([1.0]) == Ok(1.0 / 1.001);
    assert ReciprocalSum([0.75, 1.0]) == Ok(1.0 / 0.751 + 1.0 / 1.001);
    assert ReciprocalSum(s) == Ok(1.0 / 1.001 + (1.0 / 0.751 + 1.0 / 1.001));
  }

  function Dot(a: seq<real>, b: seq<real>): real
    requires |a| == |b|
  {
    if a == [] then 0.0 else a[0] * b[0] + Dot(a[1..], b[1..])
  }

  /** np.clip(x, 0, 1). */
  function Clip01(x: real): (r: real)
    ensures 0.0 <= r <= 1.0
    ensures 0.0 <= x <= 1.0 ==> r == x
    ensures x < 0.0 ==> r == 0.0
    ensures x > 1.0 ==> r == 1.0
  {
    if x < 0.0 then 0.0 else if x > 1.0 then 1.0 else x
  }

  /** A norm is the non-negative square root of the self dot product. */
  predicate IsNorm(a: seq<real>, norm: real) {
    0.0 <= norm && norm * norm == Dot(a, a)
  }

  /** compute_cosine_similarity, with np.linalg.norm supplied as `normA`,
      `normB`: dot / (|a| |b|) clipped into [0,1]; NaN for a zero vector (0/0). */
  function CosineSimilarity(a: seq<real>, b: seq<real>, normA: real, normB: real): (r: Score)
    requires |a| == |b| && IsNorm(a, normA) && IsNorm(b, normB)
    ensures r.Some? ==> 0.0 <= r.value <= 1.0
    ensures r.None? <==> normA * normB == 0.0
  {
    if normA * normB == 0.0 then None
    else Some(Clip01(Dot(a, b) / (normA * normB)))
  }

  /** The unit-test vectors: [1,0] against [3,4] gives 0.6, against [0,1] gives 0. */
  lemma CosineExamples()
    ensures CosineSimilarity([1.0, 0.0], [3.0, 4.0], 1.0, 5.0) == Some(0.6)
    ensures CosineSimilarity([1.0, 0.0], [0.0, 1.0], 1.0, 1.0) == Some(0.0)
  {
    assert Dot([1.0, 0.0], [3.0, 4.0]) == 3.0;
    assert Dot([3.0, 4.0], [3.0, 4.0]) == 25.0;
    assert Dot([1.0, 0.0], [1.0, 0.0]) == 1.0;
    assert Dot([0.0, 1.0], [0.0, 1.0]) == 1.0;
    assert Dot([1.0, 0.0], [0.0, 1.0]) == 0.0;
  }
}
