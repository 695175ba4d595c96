/** The two functions of Python's `statistics` module that the marker
    selection uses, `median` and `mean`, over exact reals, and the skew score
    |median - mean| that rates how uniform a group of blob areas is. */
module Stats {
  import opened StableSort

  function Sum(xs: seq<real>): real
  {
    if |xs| == 0 then 0.0 else xs[0] + Sum(xs[1..])
  }

  function Abs(r: real): real
  {
    if r < 0.0 then -r else r
  }

  /** The identity, as the key under which `sorted` orders plain numbers. */
  function Value(x: real): real
  {
    x
  }

  /** `statistics.mean`: the sum divided by the count. */
  function Mean(xs: seq<real>): real
    requires |xs| > 0
  {
    Sum(xs) / (|xs| as real)
  }

  /** `statistics.median`: the middle of the sorted data, or the average of
      the two middle values when the count is even. */
  function Median(xs: seq<real>): real
    requires |xs| > 0
  {
    var s := SortBy(xs, Value);
    var n := |s|;
    if n % 2 == 1 then s[n / 2] else (s[n / 2 - 1] + s[n / 2]) / 2.0
  }

  /** How skewed the distribution of `xs` is: 0 when median and mean agree. */
  function Skew(xs: seq<real>): (skew: real)
    requires |xs| > 0
    ensures skew >= 0.0
    ensures skew == 0.0 <==> Median(xs) == Mean(xs)
  {
    Abs(Median(xs) - Mean(xs))
  }

  function Min(xs: seq<real>): real
    requires |xs| > 0
  {
    if |xs| == 1 then xs[0]
    else var m := Min(xs[1..]); if xs[0] <= m then xs[0] else m
  }

  function Max(xs: seq<real>): real
    requires |xs| > 0
  {
    if |xs| == 1 then xs[0]
    else var m := Max(xs[1..]); if xs[0] >= m then xs[0] else m
  }

  lemma {:induction false} MinMaxBound(xs: seq<real>)
    requires |xs| > 0
    ensures Min(xs) in xs && Max(xs) in xs
    ensures forall i :: 0 <= i < |xs| ==> Min(xs) <= xs[i] <= Max(xs)
    decreases |xs|
  {
    if |xs| > 1 {
      MinMaxBound(xs[1..]);
      assert forall i :: 1 <= i < |xs| ==> xs[i] == xs[1..][i - 1];
    }
  }

  lemma {:induction false} SumConstant(xs: seq<real>, c: real)
    requires forall i :: 0 <= i < |xs| ==> xs[i] == c
    ensures Sum(xs) == (|xs| as real) * c
    decreases |xs|
  {
    if |xs| > 0 {
      SumConstant(xs[1..], c);
    }
  }

  lemma {:induction false} SumAppend(a: seq<real>, b: seq<real>)
    ensures Sum(a + b) == Sum(a) + Sum(b)
    decreases |a|
  {
    if |a| > 0 {
      SumAppend(a[1..], b);
      assert (a + b)[1..] == a[1..] + b;
    } else {
      assert a + b == b;
    }
  }

  /** The sum does not depend on the order of the values. */
  lemma {:induction false} SumPermutation(a: seq<real>, b: seq<real>)
    requires multiset(a) == multiset(b)
    ensures Sum(a) == Sum(b)
    decreases |a|
  {
    if |a| == 0 {
      assert |b| == |multiset(b)| == |multiset(a)| == 0;
    } else {
      assert a[0] in multiset(b);
      var i :| 0 <= i < |b| && b[i] == a[0];
      var rest := b[..i] + b[i + 1..];
      RemoveMatching(a, b, i);
      SumPermutation(a[1..], rest);
      SumRemove(b, i);
    }
  }

  /** The sum is the element at `i` plus the sum of the others. */
  lemma SumRemove(b: seq<real>, i: nat)
    requires i < |b|
    ensures Sum(b) == b[i] + Sum(b[..i] + b[i + 1..])
  {
    assert b[..i] + b[i..] == b;
    SumAppend(b[..i], b[i..]);
    assert b[i..][1..] == b[i + 1..];
    SumAppend(b[..i], b[i + 1..]);
  }

  /** A group of equal values has no skew: median, mean and value coincide. */
  lemma SkewOfUniformIsZero(xs: seq<real>, c: real)
    requires |xs| > 0
    requires forall i :: 0 <= i < |xs| ==> xs[i] == c
    ensures Median(xs) == c && Mean(xs) == c
    ensures Skew(xs) == 0.0
  {
    SumConstant(xs, c);
    SortedUniform(xs, c);
  }

  lemma SortedUniform(xs: seq<real>, c: real)
    requires forall i :: 0 <= i < |xs| ==> xs[i] == c
    ensures forall i :: 0 <= i < |xs| ==> SortBy(xs, Value)[i] == c
  {
    var s := SortBy(xs, Value);
    SortedValues(xs);
    forall i | 0 <= i < |s| ensures s[i] == c {
      var v := s[i];
      assert v in multiset(xs);
      var j :| 0 <= j < |xs| && xs[j] == v;
    }
  }

  /** For four values the skew is a quarter of how far the two middle values
      together are from the two outer ones together:
      |median - mean| = |sum - 2 (min + max)| / 4. */
  lemma SkewOfFour(xs: seq<real>)
    requires |xs| == 4
    ensures Skew(xs) == Abs(Sum(xs) - 2.0 * (Min(xs) + Max(xs))) / 4.0
  {
    var s := SortBy(xs, Value);
    SortedOfFour(xs);
    SkewArithmetic(s[0], s[1], s[2], s[3], Median(xs), Mean(xs), Sum(xs));
  }

  /** Median, sum and extremes of four values, read off their sorted order. */
  lemma SortedOfFour(xs: seq<real>)
    requires |xs| == 4
    ensures var s := SortBy(xs, Value);
      && Median(xs) == (s[1] + s[2]) / 2.0
      && Sum(xs) == s[0] + s[1] + s[2] + s[3]
      && Min(xs) == s[0] && Max(xs) == s[3]
  {
    var s := SortBy(xs, Value);
    SortedValues(xs);
    SortedPermutationExtremes(s, xs);
    SumPermutation(s, xs);
    SumOfFour(s);
  }

  lemma SkewArithmetic(a: real, b: real, c: real, d: real, med: real, mean: real, sum: real)
    requires med == (b + c) / 2.0 && sum == a + b + c + d && mean == sum / 4.0
    ensures Abs(med - mean) == Abs(sum - 2.0 * (a + d)) / 4.0
  {
    assert med - mean == (sum - 2.0 * (a + d)) / 4.0;
  }

  /** `sorted` on plain numbers: ascending, and the same values. */
  lemma SortedValues(xs: seq<real>)
    ensures multiset(SortBy(xs, Value)) == multiset(xs)
    ensures forall i, j :: 0 <= i < j < |xs| ==> SortBy(xs, Value)[i] <= SortBy(xs, Value)[j]
  {
    SortByCorrect(xs, Value);
    var s := SortBy(xs, Value);
    forall i, j | 0 <= i < j < |xs| ensures s[i] <= s[j] {
      assert Value(s[i]) <= Value(s[j]);
    }
  }

  /** The first of the sorted values is the minimum, the last the maximum. */
  lemma SortedExtremes(xs: seq<real>)
    requires |xs| > 0
    ensures SortBy(xs, Value)[0] == Min(xs)
    ensures SortBy(xs, Value)[|xs| - 1] == Max(xs)
  {
    SortedValues(xs);
    SortedPermutationExtremes(SortBy(xs, Value), xs);
  }

  /** An ascending rearrangement of `xs` starts at its minimum and ends at
      its maximum. */
  lemma SortedPermutationExtremes(s: seq<real>, xs: seq<real>)
    requires |xs| > 0 && multiset(s) == multiset(xs)
    requires forall i, j :: 0 <= i < j < |s| ==> s[i] <= s[j]
    ensures |s| == |xs| && s[0] == Min(xs) && s[|s| - 1] == Max(xs)
  {
    assert |s| == |multiset(s)| == |xs|;
    var n := |s| - 1;
    MinMaxBound(xs);
    assert Min(xs) in multiset(s) && Max(xs) in multiset(s);
    assert s[0] in multiset(xs) && s[n] in multiset(xs);
    var lo :| 0 <= lo < |s| && s[lo] == Min(xs);
    var hi :| 0 <= hi < |s| && s[hi] == Max(xs);
    var first :| 0 <= first < |xs| && xs[first] == s[0];
    var last :| 0 <= last < |xs| && xs[last] == s[n];
    assert s[0] <= s[lo] && s[hi] <= s[n] by {
      if 0 < lo {
        assert s[0] <= s[lo];
      }
      if hi < n {
        assert s[hi] <= s[n];
      }
    }
  }

  lemma SumOfFour(xs: seq<real>)
    requires |xs| == 4
    ensures Sum(xs) == xs[0] + xs[1] + xs[2] + xs[3]
  {
    assert Sum(xs[1..][1..][1..]) == xs[3] by {
      assert xs[1..][1..][1..][1..] == [];
    }
    assert Sum(xs[1..][1..]) == xs[2] + xs[3];
  }
}
