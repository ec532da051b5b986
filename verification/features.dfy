/** Layout of the 43-element feature vector built by `extract_features`
    (lines 11-35) and the column groups the two scoring paths average.

    Index 0 zero-crossing rate, 1 spectral centroid, 2 spectral bandwidth,
    3 spectral roll-off, 4-15 chroma, 16 RMS energy, 17-29 MFCC means,
    30-42 MFCC standard deviations. */
module FeatureLayout {

  /** The only vector length the batch path accepts (line 80). */
  const FeatureCount: nat := 43

  /** NumPy slicing `v[lo:hi]` with non-negative bounds: an end past the
      array is clamped, an empty range gives an empty slice. */
  function Slice(v: seq<real>, lo: nat, hi: nat): (r: seq<real>)
    ensures |r| <= hi && (|r| > 0 ==> lo + |r| <= |v|)
    ensures forall k :: 0 <= k < |r| ==> r[k] == v[lo + k]
    ensures hi <= |v| && lo <= hi ==> |r| == hi - lo
    ensures |r| == if lo < hi && lo < |v| then (if hi < |v| then hi else |v|) - lo else 0
  {
    var end := if hi < |v| then hi else |v|;
    if lo < end then v[lo..end] else []
  }

  /** The values of `v` at the listed columns, in the order listed. */
  function Pick(v: seq<real>, cols: seq<nat>): (r: seq<real>)
    requires forall k :: 0 <= k < |cols| ==> cols[k] < |v|
    ensures |r| == |cols|
  {
    seq(|cols|, k requires 0 <= k < |cols| => v[cols[k]])
  }

  predicate Distinct(cols: seq<nat>)
  {
    forall i, j :: 0 <= i < j < |cols| ==> cols[i] != cols[j]
  }

  /** Batch valence columns (lines 95-100): chroma, centroid, roll-off, MFCC means. */
  const ValenceColumns: seq<nat> :=
    [4, 5, 6, 7, 8, 9, 10, 11, 12, 13, 14, 15, 1, 3,
     17, 18, 19, 20, 21, 22, 23, 24, 25, 26, 27, 28, 29]

  /** Batch arousal columns (lines 101-107): zero-crossing rate, bandwidth, roll-off, RMS, MFCC deviations. */
  const ArousalColumns: seq<nat> :=
    [0, 2, 3, 16, 30, 31, 32, 33, 34, 35, 36, 37, 38, 39, 40, 41, 42]

  /** Single-file valence columns (lines 49-52): chroma, centroid, the first five MFCC means. */
  const SingleValenceColumns: seq<nat> :=
    [4, 5, 6, 7, 8, 9, 10, 11, 12, 13, 14, 15, 1, 21, 22, 23, 24, 25]

  /** Single-file arousal columns (lines 53-57): zero-crossing rate, bandwidth, RMS, the first five MFCC deviations. */
  const SingleArousalColumns: seq<nat> :=
    [0, 2, 16, 34, 35, 36, 37, 38]

  /** `np.concatenate` of the valence column slices of one normalised row
      (lines 95-100): exactly the 27 listed columns, in that order. */
  function BatchValenceGroup(row: seq<real>): (g: seq<real>)
    requires |row| == FeatureCount
    ensures |g| == 27
    ensures g == Pick(row, ValenceColumns)
  {
    var g := row[4..16] + row[1..2] + row[3..4] + row[17..30];
    assert forall k :: 0 <= k < |g| ==> g[k] == row[ValenceColumns[k]] by {
      forall k | 0 <= k < |g| ensures g[k] == row[ValenceColumns[k]] {
        if k < 12 { } else if k < 14 { } else { }
      }
    }
    g
  }

  /** `np.concatenate` of the arousal column slices of one normalised row
      (lines 101-107): exactly the 17 listed columns, in that order. */
  function BatchArousalGroup(row: seq<real>): (g: seq<real>)
    requires |row| == FeatureCount
    ensures |g| == 17
    ensures g == Pick(row, ArousalColumns)
  {
    var g := row[0..1] + row[2..3] + row[3..4] + row[16..17] + row[30..43];
    assert forall k :: 0 <= k < |g| ==> g[k] == row[ArousalColumns[k]] by {
      forall k | 0 <= k < |g| ensures g[k] == row[ArousalColumns[k]] {
        if k < 4 { } else { }
      }
    }
    g
  }

  /** Column `k` of the valence list, as a closed form over the position. */
  lemma ValenceColumnAt(k: nat)
    requires k < |ValenceColumns|
    ensures ValenceColumns[k] == if k < 12 then k + 4 else if k == 12 then 1 else if k == 13 then 3 else k + 3
  {
  }

  /** Column `k` of the arousal list, as a closed form over the position. */
  lemma ArousalColumnAt(k: nat)
    requires k < |ArousalColumns|
    ensures ArousalColumns[k] == if k == 0 then 0 else if k == 1 then 2 else if k == 2 then 3 else if k == 3 then 16 else k + 26
  {
  }

  /** The batch valence group is chroma, centroid, roll-off and the MFCC means, each column once. */
  lemma ValenceMembership(c: nat)
    ensures c in ValenceColumns <==> c == 1 || c == 3 || 4 <= c < 16 || 17 <= c < 30
    ensures Distinct(ValenceColumns)
  {
    forall k | 0 <= k < |ValenceColumns| { ValenceColumnAt(k); }
    if c == 1 || c == 3 || 4 <= c < 16 || 17 <= c < 30 {
      var k := if c == 1 then 12 else if c == 3 then 13 else if c < 16 then c - 4 else c - 3;
      ValenceColumnAt(k);
    }
  }

  /** The batch arousal group is zero-crossing rate, bandwidth, roll-off, RMS and the MFCC deviations, each column once. */
  lemma ArousalMembership(c: nat)
    ensures c in ArousalColumns <==> c == 0 || c == 2 || c == 3 || c == 16 || 30 <= c < 43
    ensures Distinct(ArousalColumns)
  {
    forall k | 0 <= k < |ArousalColumns| { ArousalColumnAt(k); }
    if c == 0 || c == 2 || c == 3 || c == 16 || 30 <= c < 43 {
      var k := if c == 0 then 0 else if c == 2 then 1 else if c == 3 then 2 else if c == 16 then 3 else c - 26;
      ArousalColumnAt(k);
    }
  }

  /** Roll-off (column 3) is the one column counted on both axes, and no chroma column drives arousal. */
  lemma RollOffSharedByBothAxes(c: nat)
    ensures c in ValenceColumns && c in ArousalColumns <==> c == 3
    ensures 4 <= c < 16 ==> c !in ArousalColumns
  {
    ValenceMembership(c);
    ArousalMembership(c);
  }

  /** The single-file groups are different, smaller groups: each is a proper
      subset of the batch group on the same axis, without roll-off. */
  lemma SingleGroupsWithinBatchGroups(c: nat)
    ensures |SingleValenceColumns| == 18 && |SingleArousalColumns| == 8
    ensures Distinct(SingleValenceColumns) && Distinct(SingleArousalColumns)
    ensures c in SingleValenceColumns ==> c in ValenceColumns && c != 3
    ensures c in SingleArousalColumns ==> c in ArousalColumns && c != 3
    ensures 3 !in SingleValenceColumns && 3 !in SingleArousalColumns
  {
  }
}
