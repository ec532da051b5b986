/** Sums, means, extrema and affine maps over sequences of reals: the NumPy
    reductions (`sum`, `mean`, `min`, `max`) the analyser applies to columns and rows. */
module Stats {

  /** Sum of a sequence, accumulated from the front (`np.sum`). */
  function Sum(s: seq<real>): real
  {
    if s == [] then 0.0 else Sum(s[..|s| - 1]) + s[|s| - 1]
  }

  /** Arithmetic mean of a non-empty sequence (`np.mean`). */
  function Mean(s: seq<real>): real
    requires s != []
  {
    Sum(s) / (|s| as real)
  }

  /** Smallest element of a non-empty sequence (`ndarray.min`). */
  function MinOf(s: seq<real>): (m: real)
    requires s != []
    ensures m in s
    ensures forall i :: 0 <= i < |s| ==> m <= s[i]
  {
    if |s| == 1 then s[0]
    else
      var rest := MinOf(s[..|s| - 1]);
      assert forall i :: 0 <= i < |s| - 1 ==> s[..|s| - 1][i] == s[i];
      if s[|s| - 1] < rest then s[|s| - 1] else rest
  }

  /** Largest element of a non-empty sequence (`ndarray.max`). */
  function MaxOf(s: seq<real>): (m: real)
    requires s != []
    ensures m in s
    ensures forall i :: 0 <= i < |s| ==> s[i] <= m
  {
    if |s| == 1 then s[0]
    else
      var rest := MaxOf(s[..|s| - 1]);
      assert forall i :: 0 <= i < |s| - 1 ==> s[..|s| - 1][i] == s[i];
      if s[|s| - 1] > rest then s[|s| - 1] else rest
  }

  /** Element-wise `(x - shift) / scale`, the shape of a z-score. */
  function Affine(s: seq<real>, shift: real, scale: real): (r: seq<real>)
    requires scale != 0.0
    ensures |r| == |s|
  {
    seq(|s|, i requires 0 <= i < |s| => (s[i] - shift) / scale)
  }

  /** Centring and scaling moves the sum by the shift, once per element, and divides it by the scale. */
  lemma {:induction false} SumAffine(s: seq<real>, shift: real, scale: real)
    requires scale != 0.0
    ensures Sum(Affine(s, shift, scale)) == (Sum(s) - (|s| as real) * shift) / scale
  {
    if s != [] {
      var n := |s|;
      var front := s[..n - 1];
      var r := Affine(s, shift, scale);
      assert r[..n - 1] == Affine(front, shift, scale);
      SumAffine(front, shift, scale);
      var a := Sum(front) - ((n - 1) as real) * shift;
      var b := s[n - 1] - shift;
      DivideAdds(a, b, scale);
      ShiftOnceMore(Sum(front), s[n - 1], n - 1, shift);
    }
  }

  /** Dividing two terms by the same scale is dividing their sum. */
  lemma DivideAdds(a: real, b: real, scale: real)
    requires scale != 0.0
    ensures a / scale + b / scale == (a + b) / scale
  {
  }

  /** Taking one more element into a shifted sum adds one more shift. */
  lemma ShiftOnceMore(total: real, x: real, k: nat, shift: real)
    ensures (total - (k as real) * shift) + (x - shift) == (total + x) - ((k + 1) as real) * shift
  {
  }

  /** Subtracting the mean and dividing by any non-zero scale leaves a sequence summing to zero. */
  lemma CentredSumIsZero(s: seq<real>, scale: real)
    requires s != [] && scale != 0.0
    ensures Sum(Affine(s, Mean(s), scale)) == 0.0
  {
    SumAffine(s, Mean(s), scale);
    var n := |s| as real;
    assert n * (Sum(s) / n) == Sum(s);
  }

  /** A sequence whose elements all equal `c` sums to `|s| * c`. */
  lemma {:induction false} SumOfConstant(s: seq<real>, c: real)
    requires forall i :: 0 <= i < |s| ==> s[i] == c
    ensures Sum(s) == (|s| as real) * c
  {
    if s != [] {
      SumOfConstant(s[..|s| - 1], c);
    }
  }

  /** The mean of a sequence whose elements all equal `c` is `c`. */
  lemma MeanOfConstant(s: seq<real>, c: real)
    requires s != []
    requires forall i :: 0 <= i < |s| ==> s[i] == c
    ensures Mean(s) == c
  {
    SumOfConstant(s, c);
  }

  /** Every element equals the minimum exactly when the minimum equals the maximum. */
  lemma ConstantIffMinIsMax(s: seq<real>)
    requires s != []
    ensures MinOf(s) == MaxOf(s) <==> forall i :: 0 <= i < |s| ==> s[i] == s[0]
  {
    if MinOf(s) != MaxOf(s) {
      var lo :| 0 <= lo < |s| && s[lo] == MinOf(s);
      var hi :| 0 <= hi < |s| && s[hi] == MaxOf(s);
      assert s[lo] != s[hi];
    }
  }

  /** A sequence whose elements all lie in `[lo, hi]` sums to between `|s| * lo` and `|s| * hi`. */
  lemma {:induction false} SumWithinBounds(s: seq<real>, lo: real, hi: real)
    requires forall i :: 0 <= i < |s| ==> lo <= s[i] <= hi
    ensures (|s| as real) * lo <= Sum(s) <= (|s| as real) * hi
  {
    if s != [] {
      SumWithinBounds(s[..|s| - 1], lo, hi);
    }
  }

  /** The mean lies between the minimum and the maximum. */
  lemma MeanWithinBounds(s: seq<real>)
    requires s != []
    ensures MinOf(s) <= Mean(s) <= MaxOf(s)
  {
    var n, lo, hi, total := |s| as real, MinOf(s), MaxOf(s), Sum(s);
    SumWithinBounds(s, lo, hi);
    DivideMonotone(n * lo, total, n);
    DivideMonotone(total, n * hi, n);
    ScaleCancels(n, lo);
    ScaleCancels(n, hi);
  }

  /** Multiplying by a positive number and dividing by it again is the identity. */
  lemma ScaleCancels(n: real, x: real)
    requires n > 0.0
    ensures n * x / n == x
  {
  }

  /** Division by a positive number preserves `<=`. */
  lemma DivideMonotone(a: real, b: real, d: real)
    requires d > 0.0 && a <= b
    ensures a / d <= b / d
  {
    assert b / d - a / d == (b - a) / d;
  }

  /** Division by a positive number preserves `<`. */
  lemma DivideStrictlyMonotone(a: real, b: real, d: real)
    requires d > 0.0 && a < b
    ensures a / d < b / d
  {
    assert b / d - a / d == (b - a) / d;
  }

  /** The sum of element-wise sums is the sum of the two sums. */
  lemma {:induction false} SumPointwiseAdd(a: seq<real>, b: seq<real>)
    requires |a| == |b|
    ensures Sum(seq(|a|, i requires 0 <= i < |a| => a[i] + b[i])) == Sum(a) + Sum(b)
  {
    if a != [] {
      var n := |a|;
      var ab := seq(n, i requires 0 <= i < n => a[i] + b[i]);
      SumPointwiseAdd(a[..n - 1], b[..n - 1]);
      assert ab[..n - 1] == seq(n - 1, i requires 0 <= i < n - 1 => a[..n - 1][i] + b[..n - 1][i]);
    }
  }

  /** A sequence summing to zero has its minimum at or below zero and its maximum at or above. */
  lemma ZeroSumStraddlesZero(s: seq<real>)
    requires s != [] && Sum(s) == 0.0
    ensures MinOf(s) <= 0.0 <= MaxOf(s)
  {
    MeanWithinBounds(s);
    assert Mean(s) == 0.0 / (|s| as real);
  }

  /** Sum of `f` over the elements of a sequence, accumulated from the front. */
  function SumOver<T>(xs: seq<T>, f: T -> real): real
  {
    if xs == [] then 0.0 else SumOver(xs[..|xs| - 1], f) + f(xs[|xs| - 1])
  }

  /** Summing over a concatenation is summing over each part. */
  lemma {:induction false} SumOverConcat<T>(a: seq<T>, b: seq<T>, f: T -> real)
    ensures SumOver(a + b, f) == SumOver(a, f) + SumOver(b, f)
  {
    if b != [] {
      var n := |b|;
      assert (a + b)[..|a + b| - 1] == a + b[..n - 1];
      SumOverConcat(a, b[..n - 1], f);
    } else {
      assert a + b == a;
    }
  }

  /** The sum over a sequence depends only on its multiset of elements, not on their order. */
  lemma {:induction false} SumOverPermutation<T>(a: seq<T>, b: seq<T>, f: T -> real)
    requires multiset(a) == multiset(b)
    ensures SumOver(a, f) == SumOver(b, f)
    decreases |a|
  {
    if a == [] {
      assert |b| == |multiset(b)| == 0;
    } else {
      var n := |a|;
      var last := a[n - 1];
      assert a == a[..n - 1] + [last];
      assert last in multiset(b);
      var j :| 0 <= j < |b| && b[j] == last;
      assert b == b[..j] + [last] + b[j + 1..];
      var rest := b[..j] + b[j + 1..];
      assert multiset(b) == multiset(b[..j]) + multiset{last} + multiset(b[j + 1..]);
      assert multiset(a) == multiset(a[..n - 1]) + multiset{last};
      assert multiset(rest) == multiset(b[..j]) + multiset(b[j + 1..]);
      assert multiset(rest) == multiset(b) - multiset{last};
      assert multiset(a[..n - 1]) == multiset(a) - multiset{last};
      SumOverPermutation(a[..n - 1], rest, f);
      SumOverConcat(b[..j] + [last], b[j + 1..], f);
      SumOverConcat(b[..j], [last], f);
      SumOverConcat(b[..j], b[j + 1..], f);
      assert SumOver([last], f) == f(last) by {
        assert [last][..0] == [];
      }
    }
  }

  /** Two sequences holding the same values have the same minimum and maximum. */
  lemma SameValuesSameExtrema(s: seq<real>, t: seq<real>)
    requires s != [] && t != []
    requires forall e :: e in s <==> e in t
    ensures MinOf(s) == MinOf(t) && MaxOf(s) == MaxOf(t)
  {
    var i :| 0 <= i < |t| && t[i] == MinOf(s);
    var j :| 0 <= j < |s| && s[j] == MinOf(t);
    var k :| 0 <= k < |t| && t[k] == MaxOf(s);
    var l :| 0 <= l < |s| && s[l] == MaxOf(t);
  }
}
