/** `itertools.combinations(range(lo, n), k)`: every k-element selection of the
    indices lo..n-1, each as an increasing index sequence, in lexicographic
    order. The selection loop walks `combinations(circles, 4)`, which yields
    the circles at these index combinations in this order. */
module Combinations {

  /** `c` is a k-combination of lo..n-1, written in increasing order. */
  ghost predicate IsCombination(c: seq<nat>, lo: nat, n: nat, k: nat)
  {
    && |c| == k
    && (forall i :: 0 <= i < |c| ==> lo <= c[i] < n)
    && (forall i, j :: 0 <= i < j < |c| ==> c[i] < c[j])
  }

  /** Strict lexicographic order on index sequences. */
  predicate LexLess(a: seq<nat>, b: seq<nat>)
    decreases |a|
  {
    |a| > 0 && |b| > 0 && (a[0] < b[0] || (a[0] == b[0] && LexLess(a[1..], b[1..])))
  }

  /** Every entry with `x` put in front. */
  function Prepend(x: nat, cs: seq<seq<nat>>): seq<seq<nat>>
  {
    seq(|cs|, i requires 0 <= i < |cs| => [x] + cs[i])
  }

  /** The combinations that take `lo` come first, then those that do not. */
  function Choose(lo: nat, n: nat, k: nat): seq<seq<nat>>
    decreases n - lo
  {
    if k == 0 then [[]]
    else if n <= lo then []
    else Prepend(lo, Choose(lo + 1, n, k - 1)) + Choose(lo + 1, n, k)
  }

  /** The binomial coefficient, by Pascal's rule. */
  function Binomial(m: nat, k: nat): nat
  {
    if k == 0 then 1 else if m == 0 then 0 else Binomial(m - 1, k - 1) + Binomial(m - 1, k)
  }

  /** Every entry is a k-combination of lo..n-1. */
  lemma {:induction false} ChooseSound(lo: nat, n: nat, k: nat)
    ensures forall p :: 0 <= p < |Choose(lo, n, k)| ==> IsCombination(Choose(lo, n, k)[p], lo, n, k)
    decreases n - lo
  {
    if k != 0 && lo < n {
      ChooseSound(lo + 1, n, k - 1);
      ChooseSound(lo + 1, n, k);
      var first := Prepend(lo, Choose(lo + 1, n, k - 1));
      var cs := first + Choose(lo + 1, n, k);
      forall p | 0 <= p < |cs| ensures IsCombination(cs[p], lo, n, k) {
        if p < |first| {
          var c := Choose(lo + 1, n, k - 1)[p];
          assert cs[p] == [lo] + c;
          assert forall i :: 1 <= i < |cs[p]| ==> cs[p][i] == c[i - 1];
        } else {
          assert cs[p] == Choose(lo + 1, n, k)[p - |first|];
        }
      }
    }
  }

  /** Every k-combination of lo..n-1 is an entry. */
  lemma {:induction false} ChooseComplete(lo: nat, n: nat, k: nat, c: seq<nat>)
    requires IsCombination(c, lo, n, k)
    ensures c in Choose(lo, n, k)
    decreases n - lo
  {
    if k == 0 {
      assert c == [];
    } else if c[0] == lo {
      var tail := TailIsCombination(c, lo, n, k);
      assert tail in Choose(lo + 1, n, k - 1) by {
        ChooseComplete(lo + 1, n, k - 1, tail);
      }
      InTakingPart(lo, n, k, tail);
    } else {
      assert IsCombination(c, lo + 1, n, k) && lo < n by {
        SkipFirst(c, lo, n, k);
      }
      assert c in Choose(lo + 1, n, k) by {
        ChooseComplete(lo + 1, n, k, c);
      }
      InSkippingPart(lo, n, k, c);
    }
  }

  /** A combination of lo + 1..n-1 with lo in front is listed from lo. */
  lemma InTakingPart(lo: nat, n: nat, k: nat, tail: seq<nat>)
    requires 0 < k && lo < n && tail in Choose(lo + 1, n, k - 1)
    ensures [lo] + tail in Choose(lo, n, k)
  {
    var inner := Choose(lo + 1, n, k - 1);
    var first := Prepend(lo, inner);
    var p :| 0 <= p < |inner| && inner[p] == tail;
    assert first[p] == [lo] + tail;
    assert (first + Choose(lo + 1, n, k))[p] == [lo] + tail;
  }

  /** A combination of lo + 1..n-1 is also listed from lo. */
  lemma InSkippingPart(lo: nat, n: nat, k: nat, c: seq<nat>)
    requires 0 < k && lo < n && c in Choose(lo + 1, n, k)
    ensures c in Choose(lo, n, k)
  {
    var first := Prepend(lo, Choose(lo + 1, n, k - 1));
    var rest := Choose(lo + 1, n, k);
    var q :| 0 <= q < |rest| && rest[q] == c;
    assert (first + rest)[|first| + q] == c;
  }

  /** A combination of lo..n-1 that does not start at lo avoids lo. */
  lemma SkipFirst(c: seq<nat>, lo: nat, n: nat, k: nat)
    requires IsCombination(c, lo, n, k) && k > 0 && c[0] != lo
    ensures IsCombination(c, lo + 1, n, k) && lo < n
  {
    assert forall i :: 0 <= i < |c| ==> c[0] <= c[i];
  }

  lemma TailIsCombination(c: seq<nat>, lo: nat, n: nat, k: nat) returns (tail: seq<nat>)
    requires IsCombination(c, lo, n, k) && k > 0 && c[0] == lo
    ensures IsCombination(tail, lo + 1, n, k - 1) && c == [lo] + tail
  {
    tail := c[1..];
    assert forall i :: 0 <= i < |tail| ==> tail[i] == c[i + 1] && c[0] < c[i + 1];
  }

  lemma {:induction false} LexLessPrepend(x: nat, a: seq<nat>, b: seq<nat>)
    requires LexLess(a, b)
    ensures LexLess([x] + a, [x] + b)
  {
    assert ([x] + a)[1..] == a && ([x] + b)[1..] == b;
  }

  /** Entries appear in strictly increasing lexicographic order. */
  lemma {:induction false} ChooseOrdered(lo: nat, n: nat, k: nat)
    ensures forall p, q :: 0 <= p < q < |Choose(lo, n, k)| ==> LexLess(Choose(lo, n, k)[p], Choose(lo, n, k)[q])
    decreases n - lo
  {
    if k != 0 && lo < n {
      ChooseOrdered(lo + 1, n, k - 1);
      ChooseOrdered(lo + 1, n, k);
      ChooseSound(lo + 1, n, k);
      var inner := Choose(lo + 1, n, k - 1);
      var first := Prepend(lo, inner);
      var rest := Choose(lo + 1, n, k);
      var cs := first + rest;
      forall p, q | 0 <= p < q < |cs| ensures LexLess(cs[p], cs[q]) {
        if q < |first| {
          LexLessPrepend(lo, inner[p], inner[q]);
        } else if p < |first| {
          assert cs[p] == [lo] + inner[p];
          assert cs[q] == rest[q - |first|];
          assert IsCombination(rest[q - |first|], lo + 1, n, k);
        } else {
          assert cs[p] == rest[p - |first|] && cs[q] == rest[q - |first|];
        }
      }
    }
  }

  lemma {:induction false} LexLessIrreflexive(a: seq<nat>)
    ensures !LexLess(a, a)
    decreases |a|
  {
    if |a| > 0 {
      LexLessIrreflexive(a[1..]);
    }
  }

  /** Each k-combination is listed exactly once. */
  lemma ChooseDistinct(lo: nat, n: nat, k: nat)
    ensures forall p, q :: 0 <= p < q < |Choose(lo, n, k)| ==> Choose(lo, n, k)[p] != Choose(lo, n, k)[q]
  {
    ChooseOrdered(lo, n, k);
    forall p, q | 0 <= p < q < |Choose(lo, n, k)| ensures Choose(lo, n, k)[p] != Choose(lo, n, k)[q] {
      LexLessIrreflexive(Choose(lo, n, k)[p]);
    }
  }

  /** There are (n - lo) choose k of them. */
  lemma {:induction false} ChooseCount(lo: nat, n: nat, k: nat)
    ensures |Choose(lo, n, k)| == Binomial(if lo <= n then n - lo else 0, k)
    decreases n - lo
  {
    if k != 0 && lo < n {
      ChooseCount(lo + 1, n, k - 1);
      ChooseCount(lo + 1, n, k);
    }
  }

  /** lo, lo + 1, ..., lo + k - 1 */
  function Run(lo: nat, k: nat): seq<nat>
  {
    seq(k, i requires 0 <= i < k => lo + i)
  }

  /** The last k-combination of lo..n-1 is the run of the last k indices. */
  lemma {:induction false} LastCombo(lo: nat, n: nat, k: nat)
    requires lo + k <= n
    ensures |Choose(lo, n, k)| > 0
    ensures Choose(lo, n, k)[|Choose(lo, n, k)| - 1] == Run(n - k, k)
    decreases n - lo
  {
    if k == 0 {
    } else if lo + k == n {
      OnlyCombo(lo, k);
    } else {
      LastCombo(lo + 1, n, k);
      LastOfSkip(lo, n, k);
    }
  }

  /** When lo is not needed, the last combination does not take it. */
  lemma LastOfSkip(lo: nat, n: nat, k: nat)
    requires k > 0 && lo + k < n && |Choose(lo + 1, n, k)| > 0
    ensures |Choose(lo, n, k)| > 0
    ensures Choose(lo, n, k)[|Choose(lo, n, k)| - 1] == Choose(lo + 1, n, k)[|Choose(lo + 1, n, k)| - 1]
  {
    var first := Prepend(lo, Choose(lo + 1, n, k - 1));
    var rest := Choose(lo + 1, n, k);
    assert Choose(lo, n, k) == first + rest;
  }

  /** With exactly k indices left, the only k-combination takes them all. */
  lemma {:induction false} OnlyCombo(lo: nat, k: nat)
    ensures Choose(lo, lo + k, k) == [Run(lo, k)]
    decreases k
  {
    if k == 0 {
      assert Run(lo, 0) == [];
    } else {
      var inner, rest := Choose(lo + 1, lo + k, k - 1), Choose(lo + 1, lo + k, k);
      assert inner == [Run(lo + 1, k - 1)] by {
        OnlyCombo(lo + 1, k - 1);
      }
      assert rest == [] by {
        NoCombo(lo + 1, lo + k, k);
      }
      assert Prepend(lo, inner) == [Run(lo, k)] by {
        assert [lo] + Run(lo + 1, k - 1) == Run(lo, k);
      }
      assert Choose(lo, lo + k, k) == Prepend(lo, inner) + rest;
    }
  }

  /** Fewer than k indices have no k-combination. */
  lemma NoCombo(lo: nat, n: nat, k: nat)
    requires lo <= n && n - lo < k
    ensures Choose(lo, n, k) == []
  {
    ChooseCount(lo, n, k);
    BinomialSmall(n - lo, k);
  }

  lemma {:induction false} BinomialSmall(m: nat, k: nat)
    requires m < k
    ensures Binomial(m, k) == 0
  {
    if m > 0 {
      BinomialSmall(m - 1, k - 1);
      BinomialSmall(m - 1, k);
    }
  }

}
