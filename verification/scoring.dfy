/** Corpus scoring (lines 90-114): per-column z-score over the whole corpus,
    valence and arousal as means of fixed column groups, then a min-max
    rescale of each axis to [-1, 1]. */
module Scoring {
  import opened Stats
  import opened FeatureLayout

  /** The `1e-8` added to every column's standard deviation (line 92). */
  const Epsilon: real := 0.00000001

  /** `np.stack(features_list)`: every row has the 43 features. */
  predicate IsMatrix(x: seq<seq<real>>)
  {
    forall i :: 0 <= i < |x| ==> |x[i]| == FeatureCount
  }

  function Column(x: seq<seq<real>>, j: nat): (c: seq<real>)
    requires IsMatrix(x) && j < FeatureCount
    ensures |c| == |x|
  {
    seq(|x|, i requires 0 <= i < |x| => x[i][j])
  }

  /** `features_arr.mean(axis=0)[j]`: it lies between the column's smallest
      and largest value. */
  function ColumnMean(x: seq<seq<real>>, j: nat): (m: real)
    requires IsMatrix(x) && x != [] && j < FeatureCount
    ensures MinOf(Column(x, j)) <= m <= MaxOf(Column(x, j))
  {
    MeanWithinBounds(Column(x, j));
    Mean(Column(x, j))
  }

  /** The population variance of column `j`, the square of `features_arr.std(axis=0)[j]`. */
  function ColumnVariance(x: seq<seq<real>>, j: nat): real
    requires IsMatrix(x) && x != [] && j < FeatureCount
  {
    var m := ColumnMean(x, j);
    Mean(seq(|x|, i requires 0 <= i < |x| => (x[i][j] - m) * (x[i][j] - m)))
  }

  /** The square root is a parameter (reals have none here); all that the
      z-score needs of it is that it is never negative. */
  ghost predicate NonNegativeRoot(sqrt: real -> real)
  {
    forall v :: 0.0 <= sqrt(v)
  }

  /** The denominator of line 92: standard deviation plus epsilon, always positive. */
  function Spread(x: seq<seq<real>>, j: nat, sqrt: real -> real): (d: real)
    requires IsMatrix(x) && x != [] && j < FeatureCount && NonNegativeRoot(sqrt)
    ensures d >= Epsilon
  {
    sqrt(ColumnVariance(x, j)) + Epsilon
  }

  /** Line 92: `(features_arr - mean) / (std + 1e-8)`, column by column. */
  function ZScore(x: seq<seq<real>>, sqrt: real -> real): (z: seq<seq<real>>)
    requires IsMatrix(x) && x != [] && NonNegativeRoot(sqrt)
    ensures IsMatrix(z) && |z| == |x|
  {
    seq(|x|, i requires 0 <= i < |x| =>
      seq(FeatureCount, j requires 0 <= j < FeatureCount =>
        (x[i][j] - ColumnMean(x, j)) / Spread(x, j, sqrt)))
  }

  /** Each normalised column is its raw column centred on the column mean
      and divided by the column's spread. */
  lemma ZScoreColumn(x: seq<seq<real>>, sqrt: real -> real, j: nat)
    requires IsMatrix(x) && x != [] && NonNegativeRoot(sqrt) && j < FeatureCount
    ensures Column(ZScore(x, sqrt), j) == Affine(Column(x, j), ColumnMean(x, j), Spread(x, j, sqrt))
  {
  }

  /** After normalisation every column sums to zero, so has mean zero, whatever
      the (non-negative) standard deviation. */
  lemma ZScoreColumnsCentred(x: seq<seq<real>>, sqrt: real -> real, j: nat)
    requires IsMatrix(x) && x != [] && NonNegativeRoot(sqrt) && j < FeatureCount
    ensures Sum(Column(ZScore(x, sqrt), j)) == 0.0
    ensures Mean(Column(ZScore(x, sqrt), j)) == 0.0
  {
    ZScoreColumn(x, sqrt, j);
    CentredSumIsZero(Column(x, j), Spread(x, j, sqrt));
  }

  /** Normalisation keeps the order of the files within every column. */
  lemma ZScorePreservesColumnOrder(x: seq<seq<real>>, sqrt: real -> real, j: nat, a: nat, b: nat)
    requires IsMatrix(x) && x != [] && NonNegativeRoot(sqrt) && j < FeatureCount
    requires a < |x| && b < |x|
    ensures x[a][j] < x[b][j] <==> ZScore(x, sqrt)[a][j] < ZScore(x, sqrt)[b][j]
  {
    var m, d := ColumnMean(x, j), Spread(x, j, sqrt);
    if x[a][j] < x[b][j] {
      DivideStrictlyMonotone(x[a][j] - m, x[b][j] - m, d);
    } else {
      DivideMonotone(x[b][j] - m, x[a][j] - m, d);
    }
  }

  /** A column with the same value in every file normalises to zeros: the
      epsilon keeps the division defined. */
  lemma ConstantColumnNormalisesToZero(x: seq<seq<real>>, sqrt: real -> real, j: nat)
    requires IsMatrix(x) && x != [] && NonNegativeRoot(sqrt) && j < FeatureCount
    requires forall i :: 0 <= i < |x| ==> x[i][j] == x[0][j]
    ensures forall i :: 0 <= i < |x| ==> ZScore(x, sqrt)[i][j] == 0.0
  {
    MeanOfConstant(Column(x, j), x[0][j]);
  }

  /** `valence_features.mean(axis=1)` (line 108). */
  function RawValence(z: seq<seq<real>>): (v: seq<real>)
    requires IsMatrix(z)
    ensures |v| == |z|
  {
    seq(|z|, i requires 0 <= i < |z| => Mean(BatchValenceGroup(z[i])))
  }

  /** `arousal_features.mean(axis=1)` (line 109). */
  function RawArousal(z: seq<seq<real>>): (a: seq<real>)
    requires IsMatrix(z)
    ensures |a| == |z|
  {
    seq(|z|, i requires 0 <= i < |z| => Mean(BatchArousalGroup(z[i])))
  }

  /** Taking one more column into every file's picked sum adds that column's sum over the files. */
  lemma PickSumsStep(z: seq<seq<real>>, cols: seq<nat>)
    requires IsMatrix(z) && cols != [] && forall k :: 0 <= k < |cols| ==> cols[k] < FeatureCount
    ensures Sum(seq(|z|, i requires 0 <= i < |z| => Sum(Pick(z[i], cols)))) ==
            Sum(seq(|z|, i requires 0 <= i < |z| => Sum(Pick(z[i], cols[..|cols| - 1])))) +
            Sum(Column(z, cols[|cols| - 1]))
  {
    var m := |cols|;
    var front, c := cols[..m - 1], cols[m - 1];
    var before := seq(|z|, i requires 0 <= i < |z| => Sum(Pick(z[i], front)));
    forall i | 0 <= i < |z|
      ensures Sum(Pick(z[i], cols)) == before[i] + Column(z, c)[i]
    {
      assert Pick(z[i], cols)[..m - 1] == Pick(z[i], front);
    }
    SumPointwiseAdd(before, Column(z, c));
    assert seq(|z|, i requires 0 <= i < |z| => Sum(Pick(z[i], cols))) ==
           seq(|z|, i requires 0 <= i < |z| => before[i] + Column(z, c)[i]);
  }

  /** The column sums over one more column gain that column's sum. */
  lemma ColumnSumsStep(z: seq<seq<real>>, cols: seq<nat>)
    requires IsMatrix(z) && cols != [] && forall k :: 0 <= k < |cols| ==> cols[k] < FeatureCount
    ensures Sum(seq(|cols|, k requires 0 <= k < |cols| => Sum(Column(z, cols[k])))) ==
            Sum(seq(|cols| - 1, k requires 0 <= k < |cols| - 1 => Sum(Column(z, cols[..|cols| - 1][k])))) +
            Sum(Column(z, cols[|cols| - 1]))
  {
    var m := |cols|;
    var total := seq(m, k requires 0 <= k < m => Sum(Column(z, cols[k])));
    assert total[..m - 1] == seq(m - 1, k requires 0 <= k < m - 1 => Sum(Column(z, cols[..m - 1][k])));
  }

  /** Summing each file's picked values and then over the files is summing
      each picked column over the files and then over the columns. */
  lemma {:induction false} PickSumsByColumn(z: seq<seq<real>>, cols: seq<nat>)
    requires IsMatrix(z) && forall k :: 0 <= k < |cols| ==> cols[k] < FeatureCount
    ensures Sum(seq(|z|, i requires 0 <= i < |z| => Sum(Pick(z[i], cols)))) ==
            Sum(seq(|cols|, k requires 0 <= k < |cols| => Sum(Column(z, cols[k]))))
  {
    if cols != [] {
      PickSumsByColumn(z, cols[..|cols| - 1]);
      PickSumsStep(z, cols);
      ColumnSumsStep(z, cols);
    } else {
      SumOfConstant(seq(|z|, i requires 0 <= i < |z| => Sum(Pick(z[i], cols))), 0.0);
    }
  }

  /** When every picked column sums to zero over the files, so do the
      files' means of their picked values. */
  lemma PickedMeansSumToZero(z: seq<seq<real>>, cols: seq<nat>)
    requires IsMatrix(z) && cols != [] && forall k :: 0 <= k < |cols| ==> cols[k] < FeatureCount
    requires forall k :: 0 <= k < |cols| ==> Sum(Column(z, cols[k])) == 0.0
    ensures Sum(seq(|z|, i requires 0 <= i < |z| => Mean(Pick(z[i], cols)))) == 0.0
  {
    var sums := seq(|z|, i requires 0 <= i < |z| => Sum(Pick(z[i], cols)));
    PickSumsByColumn(z, cols);
    var columnSums := seq(|cols|, k requires 0 <= k < |cols| => Sum(Column(z, cols[k])));
    SumOfConstant(columnSums, 0.0);
    var width := |cols| as real;
    SumAffine(sums, 0.0, width);
    assert Affine(sums, 0.0, width) == seq(|z|, i requires 0 <= i < |z| => Mean(Pick(z[i], cols)));
  }

  /** The mean of the picked columns of every row sums to zero over the
      corpus, because every normalised column does. */
  lemma GroupMeansCentred(x: seq<seq<real>>, sqrt: real -> real, cols: seq<nat>)
    requires IsMatrix(x) && x != [] && NonNegativeRoot(sqrt)
    requires cols != [] && forall k :: 0 <= k < |cols| ==> cols[k] < FeatureCount
    ensures Sum(seq(|x|, i requires 0 <= i < |x| => Mean(Pick(ZScore(x, sqrt)[i], cols)))) == 0.0
  {
    var z := ZScore(x, sqrt);
    forall k | 0 <= k < |cols| ensures Sum(Column(z, cols[k])) == 0.0 {
      ZScoreColumnsCentred(x, sqrt, cols[k]);
    }
    PickedMeansSumToZero(z, cols);
  }

  /** Over the corpus the raw valences sum to zero, so the lowest raw valence
      is never above zero and the highest never below. */
  lemma RawValenceCentred(x: seq<seq<real>>, sqrt: real -> real)
    requires IsMatrix(x) && x != [] && NonNegativeRoot(sqrt)
    ensures Sum(RawValence(ZScore(x, sqrt))) == 0.0
    ensures MinOf(RawValence(ZScore(x, sqrt))) <= 0.0 <= MaxOf(RawValence(ZScore(x, sqrt)))
  {
    var z := ZScore(x, sqrt);
    var v := RawValence(z);
    GroupMeansCentred(x, sqrt, ValenceColumns);
    assert v == seq(|x|, i requires 0 <= i < |x| => Mean(Pick(z[i], ValenceColumns)));
    ZeroSumStraddlesZero(v);
  }

  /** Over the corpus the raw arousals sum to zero, so the lowest raw arousal
      is never above zero and the highest never below. */
  lemma RawArousalCentred(x: seq<seq<real>>, sqrt: real -> real)
    requires IsMatrix(x) && x != [] && NonNegativeRoot(sqrt)
    ensures Sum(RawArousal(ZScore(x, sqrt))) == 0.0
    ensures MinOf(RawArousal(ZScore(x, sqrt))) <= 0.0 <= MaxOf(RawArousal(ZScore(x, sqrt)))
  {
    var z := ZScore(x, sqrt);
    var a := RawArousal(z);
    GroupMeansCentred(x, sqrt, ArousalColumns);
    assert a == seq(|x|, i requires 0 <= i < |x| => Mean(Pick(z[i], ArousalColumns)));
    ZeroSumStraddlesZero(a);
  }

  /** One rescaled value, `2 * (x - lo) / (hi - lo) - 1`: the map can be
      undone, `x == lo + (r + 1) * (hi - lo) / 2`. */
  function Stretch(x: real, lo: real, hi: real): (r: real)
    requires lo < hi
    ensures (r + 1.0) * (hi - lo) == 2.0 * (x - lo)
  {
    2.0 * (x - lo) / (hi - lo) - 1.0
  }

  lemma StretchBounds(x: real, lo: real, hi: real)
    requires lo <= x <= hi && lo < hi
    ensures -1.0 <= Stretch(x, lo, hi) <= 1.0
    ensures x == lo ==> Stretch(x, lo, hi) == -1.0
    ensures x == hi ==> Stretch(x, lo, hi) == 1.0
  {
    var d := hi - lo;
    DivideMonotone(0.0, 2.0 * (x - lo), d);
    DivideMonotone(2.0 * (x - lo), 2.0 * d, d);
    ScaleCancels(d, 2.0);
  }

  /** Lines 111-114: min-max rescale of one axis to [-1, 1]; an axis on
      which every file scores the same maps to zeros. */
  function Rescale(v: seq<real>): (r: seq<real>)
    requires v != []
    ensures |r| == |v|
    ensures forall i :: 0 <= i < |r| ==> -1.0 <= r[i] <= 1.0
  {
    var lo, hi := MinOf(v), MaxOf(v);
    if hi > lo then
      var r := seq(|v|, i requires 0 <= i < |v| => Stretch(v[i], lo, hi));
      assert forall i :: 0 <= i < |v| ==> -1.0 <= r[i] <= 1.0 by {
        forall i | 0 <= i < |v| ensures -1.0 <= r[i] <= 1.0 {
          StretchBounds(v[i], lo, hi);
        }
      }
      r
    else
      seq(|v|, _ => 0.0)
  }

  /** When the axis is not constant, the lowest file gets -1 and the highest 1. */
  lemma RescaleReachesEnds(v: seq<real>)
    requires v != [] && MinOf(v) < MaxOf(v)
    ensures forall i :: 0 <= i < |v| && v[i] == MinOf(v) ==> Rescale(v)[i] == -1.0
    ensures forall i :: 0 <= i < |v| && v[i] == MaxOf(v) ==> Rescale(v)[i] == 1.0
    ensures -1.0 in Rescale(v) && 1.0 in Rescale(v)
  {
    forall i | 0 <= i < |v|
      ensures v[i] == MinOf(v) ==> Rescale(v)[i] == -1.0
      ensures v[i] == MaxOf(v) ==> Rescale(v)[i] == 1.0
    {
      StretchBounds(v[i], MinOf(v), MaxOf(v));
    }
    var lo :| 0 <= lo < |v| && v[lo] == MinOf(v);
    var hi :| 0 <= hi < |v| && v[hi] == MaxOf(v);
    assert Rescale(v)[lo] == -1.0 && Rescale(v)[hi] == 1.0;
  }

  lemma StretchStrictlyMonotone(x: real, y: real, lo: real, hi: real)
    requires lo < hi && x < y
    ensures Stretch(x, lo, hi) < Stretch(y, lo, hi)
  {
    DivideStrictlyMonotone(2.0 * (x - lo), 2.0 * (y - lo), hi - lo);
  }

  /** When the axis is not constant, rescaling keeps the order between files, both ways. */
  lemma RescalePreservesOrder(v: seq<real>, a: nat, b: nat)
    requires v != [] && MinOf(v) < MaxOf(v)
    requires a < |v| && b < |v|
    ensures v[a] < v[b] <==> Rescale(v)[a] < Rescale(v)[b]
    ensures v[a] == v[b] <==> Rescale(v)[a] == Rescale(v)[b]
  {
    var lo, hi := MinOf(v), MaxOf(v);
    var r := Rescale(v);
    assert r[a] == Stretch(v[a], lo, hi) && r[b] == Stretch(v[b], lo, hi);
    if v[a] < v[b] {
      StretchStrictlyMonotone(v[a], v[b], lo, hi);
    } else if v[b] < v[a] {
      StretchStrictlyMonotone(v[b], v[a], lo, hi);
    }
  }

  /** Every value is 0 exactly when the axis is constant (max equals min). */
  lemma RescaleDegenerate(v: seq<real>)
    requires v != []
    ensures MinOf(v) == MaxOf(v) ==> forall i :: 0 <= i < |v| ==> Rescale(v)[i] == 0.0
    ensures (forall i :: 0 <= i < |v| ==> Rescale(v)[i] == 0.0) ==> MinOf(v) == MaxOf(v)
  {
    if MinOf(v) < MaxOf(v) {
      RescaleReachesEnds(v);
    }
  }

  /** Two files with raw scores 0.2 and -0.2 land on the two ends of the axis. */
  lemma RescaleTwoFiles()
    ensures Rescale([0.2, -0.2]) == [1.0, -1.0]
    ensures Rescale([-0.5, 0.5]) == [-1.0, 1.0]
    ensures Rescale([0.7]) == [0.0]
  {
    RescaleReachesEnds([0.2, -0.2]);
    RescaleReachesEnds([-0.5, 0.5]);
  }

  /** The final score of one file. */
  datatype AffectPair = AffectPair(valence: real, arousal: real)

  /** Lines 90-114: the score of every file of the corpus, in corpus order. */
  function Score(x: seq<seq<real>>, sqrt: real -> real): (pairs: seq<AffectPair>)
    requires IsMatrix(x) && x != [] && NonNegativeRoot(sqrt)
    ensures |pairs| == |x|
    ensures forall i :: 0 <= i < |pairs| ==>
      -1.0 <= pairs[i].valence <= 1.0 && -1.0 <= pairs[i].arousal <= 1.0
  {
    var z := ZScore(x, sqrt);
    var valence := Rescale(RawValence(z));
    var arousal := Rescale(RawArousal(z));
    seq(|x|, i requires 0 <= i < |x| => AffectPair(valence[i], arousal[i]))
  }

  /** Pair `i` holds the rescaled raw scores of row `i`. */
  lemma ScoreAt(x: seq<seq<real>>, sqrt: real -> real, i: nat)
    requires IsMatrix(x) && x != [] && NonNegativeRoot(sqrt) && i < |x|
    ensures Score(x, sqrt)[i].valence == Rescale(RawValence(ZScore(x, sqrt)))[i]
    ensures Score(x, sqrt)[i].arousal == Rescale(RawArousal(ZScore(x, sqrt)))[i]
  {
  }

  /** Unless every file has the same raw valence, some file scores valence -1
      and some file scores valence 1; likewise for arousal. */
  lemma ScoreSpansAxes(x: seq<seq<real>>, sqrt: real -> real)
    requires IsMatrix(x) && x != [] && NonNegativeRoot(sqrt)
    ensures var v := RawValence(ZScore(x, sqrt));
      MinOf(v) < MaxOf(v) ==>
        (exists i :: 0 <= i < |x| && Score(x, sqrt)[i].valence == -1.0) &&
        (exists i :: 0 <= i < |x| && Score(x, sqrt)[i].valence == 1.0)
    ensures var a := RawArousal(ZScore(x, sqrt));
      MinOf(a) < MaxOf(a) ==>
        (exists i :: 0 <= i < |x| && Score(x, sqrt)[i].arousal == -1.0) &&
        (exists i :: 0 <= i < |x| && Score(x, sqrt)[i].arousal == 1.0)
  {
    var z := ZScore(x, sqrt);
    var v, a := RawValence(z), RawArousal(z);
    var s := Score(x, sqrt);
    if MinOf(v) < MaxOf(v) {
      RescaleReachesEnds(v);
      var lo :| 0 <= lo < |v| && v[lo] == MinOf(v);
      var hi :| 0 <= hi < |v| && v[hi] == MaxOf(v);
      ScoreAt(x, sqrt, lo);
      ScoreAt(x, sqrt, hi);
    }
    if MinOf(a) < MaxOf(a) {
      RescaleReachesEnds(a);
      var lo :| 0 <= lo < |a| && a[lo] == MinOf(a);
      var hi :| 0 <= hi < |a| && a[hi] == MaxOf(a);
      ScoreAt(x, sqrt, lo);
      ScoreAt(x, sqrt, hi);
    }
  }

  /** A corpus of one file scores (0, 0). */
  lemma SingleFileCorpusScoresZero(x: seq<seq<real>>, sqrt: real -> real)
    requires IsMatrix(x) && |x| == 1 && NonNegativeRoot(sqrt)
    ensures Score(x, sqrt) == [AffectPair(0.0, 0.0)]
  {
    var z := ZScore(x, sqrt);
    RescaleDegenerate(RawValence(z));
    RescaleDegenerate(RawArousal(z));
  }

  /** Summing a function of each row over the rows. */
  lemma {:induction false} RowwiseSum(x: seq<seq<real>>, g: seq<real> -> real)
    ensures Sum(seq(|x|, i requires 0 <= i < |x| => g(x[i]))) == SumOver(x, g)
  {
    if x != [] {
      var n := |x|;
      RowwiseSum(x[..n - 1], g);
      assert seq(|x|, i requires 0 <= i < |x| => g(x[i]))[..n - 1] ==
             seq(n - 1, i requires 0 <= i < n - 1 => g(x[..n - 1][i]));
    }
  }

  /** A sum of a function of each row depends only on the multiset of rows. */
  lemma RowwiseSumIgnoresOrder(x: seq<seq<real>>, y: seq<seq<real>>, g: seq<real> -> real)
    requires multiset(y) == multiset(x)
    ensures |y| == |x|
    ensures Sum(seq(|y|, i requires 0 <= i < |y| => g(y[i]))) ==
            Sum(seq(|x|, i requires 0 <= i < |x| => g(x[i])))
  {
    assert |y| == |multiset(y)| == |multiset(x)| == |x|;
    RowwiseSum(x, g);
    RowwiseSum(y, g);
    SumOverPermutation(y, x, g);
  }

  /** Column means depend only on the multiset of rows. */
  lemma ColumnMeanIgnoresOrder(x: seq<seq<real>>, y: seq<seq<real>>, j: nat)
    requires IsMatrix(x) && x != [] && IsMatrix(y) && multiset(y) == multiset(x)
    requires j < FeatureCount
    ensures |y| == |x| && ColumnMean(y, j) == ColumnMean(x, j)
  {
    var at := (row: seq<real>) => if j < |row| then row[j] else 0.0;
    assert Column(x, j) == seq(|x|, i requires 0 <= i < |x| => at(x[i]));
    assert Column(y, j) == seq(|y|, i requires 0 <= i < |y| => at(y[i]));
    RowwiseSumIgnoresOrder(x, y, at);
  }

  /** The squared deviations of a column from any centre `m` sum to the same
      total whatever the order of the rows. */
  lemma SquaredDeviationsIgnoreOrder(x: seq<seq<real>>, y: seq<seq<real>>, j: nat, m: real)
    requires IsMatrix(x) && IsMatrix(y) && multiset(y) == multiset(x) && j < FeatureCount
    ensures |y| == |x|
    ensures Sum(seq(|y|, i requires 0 <= i < |y| => (y[i][j] - m) * (y[i][j] - m))) ==
            Sum(seq(|x|, i requires 0 <= i < |x| => (x[i][j] - m) * (x[i][j] - m)))
  {
    var dev := (row: seq<real>) => if j < |row| then (row[j] - m) * (row[j] - m) else 0.0;
    assert seq(|x|, i requires 0 <= i < |x| => (x[i][j] - m) * (x[i][j] - m)) ==
           seq(|x|, i requires 0 <= i < |x| => dev(x[i]));
    assert seq(|y|, i requires 0 <= i < |y| => (y[i][j] - m) * (y[i][j] - m)) ==
           seq(|y|, i requires 0 <= i < |y| => dev(y[i]));
    RowwiseSumIgnoresOrder(x, y, dev);
  }

  /** Column variances depend only on the multiset of rows. */
  lemma ColumnVarianceIgnoresOrder(x: seq<seq<real>>, y: seq<seq<real>>, j: nat)
    requires IsMatrix(x) && x != [] && IsMatrix(y) && multiset(y) == multiset(x)
    requires j < FeatureCount
    ensures |y| == |x| && ColumnVariance(y, j) == ColumnVariance(x, j)
  {
    ColumnMeanIgnoresOrder(x, y, j);
    SquaredDeviationsIgnoreOrder(x, y, j, ColumnMean(x, j));
  }

  /** One normalised value. */
  lemma ZScoreAt(x: seq<seq<real>>, sqrt: real -> real, i: nat, j: nat)
    requires IsMatrix(x) && x != [] && NonNegativeRoot(sqrt) && i < |x| && j < FeatureCount
    ensures ZScore(x, sqrt)[i][j] == (x[i][j] - ColumnMean(x, j)) / Spread(x, j, sqrt)
  {
  }

  /** Two corpora with the same multiset of rows normalise a shared value the same way. */
  lemma ZScoreEntryIgnoresOrder(x: seq<seq<real>>, y: seq<seq<real>>, sqrt: real -> real, a: nat, b: nat, j: nat)
    requires IsMatrix(x) && x != [] && IsMatrix(y) && multiset(y) == multiset(x)
    requires NonNegativeRoot(sqrt) && j < FeatureCount
    requires a < |y| && b < |x| && y[a] == x[b]
    ensures |y| == |x| && ZScore(y, sqrt)[a][j] == ZScore(x, sqrt)[b][j]
  {
    ColumnMeanIgnoresOrder(x, y, j);
    ColumnVarianceIgnoresOrder(x, y, j);
    ZScoreAt(x, sqrt, b, j);
    ZScoreAt(y, sqrt, a, j);
  }

  /** Two corpora with the same multiset of rows normalise a shared row to the same values. */
  lemma ZScoreRowIgnoresOrder(x: seq<seq<real>>, y: seq<seq<real>>, sqrt: real -> real, a: nat, b: nat)
    requires IsMatrix(x) && x != [] && IsMatrix(y) && multiset(y) == multiset(x)
    requires NonNegativeRoot(sqrt)
    requires a < |y| && b < |x| && y[a] == x[b]
    ensures ZScore(y, sqrt)[a] == ZScore(x, sqrt)[b]
  {
    var ry, rx := ZScore(y, sqrt)[a], ZScore(x, sqrt)[b];
    forall j | 0 <= j < FeatureCount ensures ry[j] == rx[j] {
      ZScoreEntryIgnoresOrder(x, y, sqrt, a, b, j);
    }
    assert |ry| == |rx| == FeatureCount;
  }

  /** Rescaling a value depends only on the value and on the set of values of the axis. */
  lemma RescaleIgnoresOrder(v: seq<real>, w: seq<real>, a: nat, b: nat)
    requires v != [] && w != [] && forall e :: e in v <==> e in w
    requires a < |v| && b < |w| && v[a] == w[b]
    ensures Rescale(v)[a] == Rescale(w)[b]
  {
    SameValuesSameExtrema(v, w);
  }

  /** Every row of a reordered corpus is a row of the original. */
  lemma RowOfReordered(x: seq<seq<real>>, y: seq<seq<real>>, p: nat) returns (q: nat)
    requires multiset(y) == multiset(x) && p < |y|
    ensures q < |x| && x[q] == y[p]
  {
    assert y[p] in multiset(x);
    q :| 0 <= q < |x| && x[q] == y[p];
  }

  /** Reordering the corpus reorders the raw scores the same way, so each axis keeps its values. */
  lemma RawScoresIgnoreOrder(x: seq<seq<real>>, y: seq<seq<real>>, sqrt: real -> real)
    requires IsMatrix(x) && x != [] && IsMatrix(y) && multiset(y) == multiset(x)
    requires NonNegativeRoot(sqrt)
    ensures |y| == |x|
    ensures forall e :: e in RawValence(ZScore(y, sqrt)) <==> e in RawValence(ZScore(x, sqrt))
    ensures forall e :: e in RawArousal(ZScore(y, sqrt)) <==> e in RawArousal(ZScore(x, sqrt))
  {
    assert |y| == |multiset(y)| == |multiset(x)| == |x|;
    var zx, zy := ZScore(x, sqrt), ZScore(y, sqrt);
    forall p | 0 <= p < |y|
      ensures RawValence(zy)[p] in RawValence(zx) && RawArousal(zy)[p] in RawArousal(zx)
    {
      var q := RowOfReordered(x, y, p);
      ZScoreRowIgnoresOrder(x, y, sqrt, p, q);
      assert RawValence(zy)[p] == RawValence(zx)[q];
      assert RawArousal(zy)[p] == RawArousal(zx)[q];
    }
    forall q | 0 <= q < |x|
      ensures RawValence(zx)[q] in RawValence(zy) && RawArousal(zx)[q] in RawArousal(zy)
    {
      var p := RowOfReordered(y, x, q);
      ZScoreRowIgnoresOrder(x, y, sqrt, p, q);
      assert RawValence(zy)[p] == RawValence(zx)[q];
      assert RawArousal(zy)[p] == RawArousal(zx)[q];
    }
  }

  /** A file's score depends only on its own features and on the multiset of
      feature rows in the corpus, not on the order `os.listdir` produced:
      whenever row `a` of a reordered corpus is row `b` of the original, the
      two score the same. */
  lemma ScoreIgnoresListingOrder(x: seq<seq<real>>, y: seq<seq<real>>, sqrt: real -> real, a: nat, b: nat)
    requires IsMatrix(x) && x != [] && NonNegativeRoot(sqrt)
    requires multiset(y) == multiset(x)
    requires a < |y| && b < |x| && y[a] == x[b]
    ensures IsMatrix(y) && |y| == |x|
    ensures Score(y, sqrt)[a] == Score(x, sqrt)[b]
  {
    assert |y| == |multiset(y)| == |multiset(x)| == |x|;
    forall p | 0 <= p < |y| ensures |y[p]| == FeatureCount {
      var q := RowOfReordered(x, y, p);
    }
    var zx, zy := ZScore(x, sqrt), ZScore(y, sqrt);
    ZScoreRowIgnoresOrder(x, y, sqrt, a, b);
    RawScoresIgnoreOrder(x, y, sqrt);
    RescaleIgnoresOrder(RawValence(zy), RawValence(zx), a, b);
    RescaleIgnoresOrder(RawArousal(zy), RawArousal(zx), a, b);
    ScoreAt(x, sqrt, b);
    ScoreAt(y, sqrt, a);
  }
}
