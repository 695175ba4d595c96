/** Python's built-in sort with a key function (`sorted(xs)`, `xs.sort(key=...)`):
    ascending by key and stable, i.e. elements with equal keys keep their
    relative order. Modelled as insertion sort; the lemmas show that its result
    is the one and only sequence that is sorted and a stable permutation. */
module StableSort {

  /** Inserts `x` in front of the first element whose key is not smaller. */
  function Insert<T>(x: T, s: seq<T>, key: T -> real): (r: seq<T>)
    ensures |r| == |s| + 1
  {
    if |s| == 0 || key(x) <= key(s[0]) then [x] + s
    else [s[0]] + Insert(x, s[1..], key)
  }

  function SortBy<T>(s: seq<T>, key: T -> real): (r: seq<T>)
    ensures |r| == |s|
  {
    if |s| == 0 then [] else Insert(s[0], SortBy(s[1..], key), key)
  }

  ghost predicate SortedBy<T>(s: seq<T>, key: T -> real)
  {
    forall i, j :: 0 <= i < j < |s| ==> key(s[i]) <= key(s[j])
  }

  /** The elements of `s` whose key is `k`, in their order in `s`. */
  function WithKey<T>(s: seq<T>, key: T -> real, k: real): seq<T>
  {
    if |s| == 0 then []
    else (if key(s[0]) == k then [s[0]] else []) + WithKey(s[1..], key, k)
  }

  /** `r` holds the elements of `s` and, key by key, in the same order. */
  ghost predicate StablePermutationOf<T>(r: seq<T>, s: seq<T>, key: T -> real)
  {
    forall k :: WithKey(r, key, k) == WithKey(s, key, k)
  }

  /** Taking out the element at `i` takes one copy of it out of the multiset. */
  lemma RemoveAt<T>(s: seq<T>, i: nat)
    requires i < |s|
    ensures s == s[..i] + [s[i]] + s[i + 1..]
    ensures multiset(s[..i] + s[i + 1..]) == multiset(s) - multiset{s[i]}
  {
    assert s == s[..i] + [s[i]] + s[i + 1..];
  }

  /** Taking the first element out of `a` and an equal one out of its
      permutation `b` leaves permutations of each other. */
  lemma RemoveMatching<T>(a: seq<T>, b: seq<T>, i: nat)
    requires multiset(a) == multiset(b)
    requires 0 < |a| && i < |b| && b[i] == a[0]
    ensures multiset(a[1..]) == multiset(b[..i] + b[i + 1..])
  {
    RemoveAt(b, i);
    RemoveAt(a, 0);
    assert a[..0] + a[1..] == a[1..];
  }

  lemma {:induction false} InsertPermutes<T>(x: T, s: seq<T>, key: T -> real)
    ensures multiset(Insert(x, s, key)) == multiset([x] + s)
    ensures |Insert(x, s, key)| == |s| + 1
    decreases |s|
  {
    if |s| == 0 || key(x) <= key(s[0]) {
    } else {
      InsertPermutes(x, s[1..], key);
      assert s == [s[0]] + s[1..];
    }
  }

  lemma {:induction false} InsertSorted<T>(x: T, s: seq<T>, key: T -> real)
    requires SortedBy(s, key)
    ensures SortedBy(Insert(x, s, key), key)
    decreases |s|
  {
    if |s| == 0 || key(x) <= key(s[0]) {
    } else {
      var t := Insert(x, s[1..], key);
      InsertSorted(x, s[1..], key);
      assert forall j :: 0 <= j < |t| ==> key(s[0]) <= key(t[j]) by {
        assert forall m :: 0 <= m < |s[1..]| ==> s[1..][m] == s[m + 1];
        InsertBounded(x, s[1..], key, key(s[0]));
      }
      var r := [s[0]] + t;
      assert forall i, j :: 0 < i < j < |r| ==> r[i] == t[i - 1] && r[j] == t[j - 1];
    }
  }

  /** Inserting keeps a lower bound on the keys. */
  lemma InsertBounded<T>(x: T, s: seq<T>, key: T -> real, lo: real)
    requires lo <= key(x) && forall m :: 0 <= m < |s| ==> lo <= key(s[m])
    ensures forall j :: 0 <= j < |Insert(x, s, key)| ==> lo <= key(Insert(x, s, key)[j])
  {
    var t := Insert(x, s, key);
    InsertPermutes(x, s, key);
    forall j | 0 <= j < |t| ensures lo <= key(t[j]) {
      assert t[j] in multiset([x] + s);
      if t[j] != x {
        assert t[j] in s;
      }
    }
  }

  lemma {:induction false} InsertKeepsKeyOrder<T>(x: T, s: seq<T>, key: T -> real, k: real)
    ensures WithKey(Insert(x, s, key), key, k) == WithKey([x] + s, key, k)
    decreases |s|
  {
    if |s| == 0 || key(x) <= key(s[0]) {
    } else {
      InsertKeepsKeyOrder(x, s[1..], key, k);
      var t := Insert(x, s[1..], key);
      assert ([s[0]] + t)[1..] == t;
      assert ([x] + s)[1..] == s;
      assert ([x] + s[1..])[1..] == s[1..];
    }
  }

  /** The sort's result is sorted, a permutation, and stable. */
  lemma {:induction false} SortByCorrect<T>(s: seq<T>, key: T -> real)
    ensures |SortBy(s, key)| == |s|
    ensures SortedBy(SortBy(s, key), key)
    ensures multiset(SortBy(s, key)) == multiset(s)
    ensures StablePermutationOf(SortBy(s, key), s, key)
    decreases |s|
  {
    if |s| != 0 {
      SortByCorrect(s[1..], key);
      InsertSorted(s[0], SortBy(s[1..], key), key);
      InsertPermutes(s[0], SortBy(s[1..], key), key);
      assert s == [s[0]] + s[1..];
      forall k ensures WithKey(SortBy(s, key), key, k) == WithKey(s, key, k) {
        InsertKeepsKeyOrder(s[0], SortBy(s[1..], key), key, k);
        assert ([s[0]] + SortBy(s[1..], key))[1..] == SortBy(s[1..], key);
      }
    }
  }

  lemma {:induction false} WithKeyElement<T>(s: seq<T>, key: T -> real, k: real, i: nat)
    requires i < |WithKey(s, key, k)|
    ensures WithKey(s, key, k)[i] in s && key(WithKey(s, key, k)[i]) == k
    decreases |s|
  {
    if key(s[0]) == k && i == 0 {
    } else {
      var j := if key(s[0]) == k then i - 1 else i;
      WithKeyElement(s[1..], key, k, j);
    }
  }

  lemma WithKeyHead<T>(s: seq<T>, key: T -> real)
    requires |s| > 0
    ensures WithKey(s, key, key(s[0])) == [s[0]] + WithKey(s[1..], key, key(s[0]))
  {
  }

  /** Two sorted sequences that agree key by key are equal: the sort's result
      is determined by its specification. */
  lemma {:induction false} SortedStableUnique<T>(a: seq<T>, b: seq<T>, key: T -> real)
    requires SortedBy(a, key) && SortedBy(b, key)
    requires StablePermutationOf(a, b, key)
    ensures a == b
    decreases |a|
  {
    EmptyMatches(a, b, key);
    if |a| > 0 {
      SameHead(a, b, key);
      StableTails(a, b, key);
      SortedTail(a, key);
      SortedTail(b, key);
      SortedStableUnique(a[1..], b[1..], key);
      assert a == [a[0]] + a[1..] && b == [b[0]] + b[1..];
    }
  }

  lemma EmptyMatches<T>(a: seq<T>, b: seq<T>, key: T -> real)
    requires StablePermutationOf(a, b, key)
    ensures |a| == 0 <==> |b| == 0
  {
    if |a| > 0 {
      assert WithKey(a, key, key(a[0])) != [];
    }
    if |b| > 0 {
      assert WithKey(b, key, key(b[0])) != [];
    }
  }

  /** Sorted stable permutations of each other start with the same element:
      the first one with the smallest key. */
  lemma SameHead<T>(a: seq<T>, b: seq<T>, key: T -> real)
    requires SortedBy(a, key) && SortedBy(b, key)
    requires StablePermutationOf(a, b, key)
    requires |a| > 0 && |b| > 0
    ensures a[0] == b[0]
  {
    var ka, kb := key(a[0]), key(b[0]);
    WithKeyHead(a, key);
    WithKeyHead(b, key);
    WithKeyElement(a, key, kb, 0);
    WithKeyElement(b, key, ka, 0);
    assert ka <= kb by {
      var e := WithKey(a, key, kb)[0];
      var i :| 0 <= i < |a| && a[i] == e;
    }
    assert kb <= ka by {
      var e := WithKey(b, key, ka)[0];
      var i :| 0 <= i < |b| && b[i] == e;
    }
  }

  /** Dropping the same first element keeps a stable permutation. */
  lemma StableTails<T>(a: seq<T>, b: seq<T>, key: T -> real)
    requires StablePermutationOf(a, b, key)
    requires |a| > 0 && |b| > 0 && a[0] == b[0]
    ensures StablePermutationOf(a[1..], b[1..], key)
  {
    forall k ensures WithKey(a[1..], key, k) == WithKey(b[1..], key, k) {
      assert WithKey(a, key, k) == WithKey(b, key, k);
      if k == key(a[0]) {
        assert [a[0]] + WithKey(a[1..], key, k) == [b[0]] + WithKey(b[1..], key, k);
        assert ([a[0]] + WithKey(a[1..], key, k))[1..] == WithKey(a[1..], key, k);
        assert ([b[0]] + WithKey(b[1..], key, k))[1..] == WithKey(b[1..], key, k);
      } else {
        assert WithKey(a, key, k) == [] + WithKey(a[1..], key, k);
        assert WithKey(b, key, k) == [] + WithKey(b[1..], key, k);
        assert [] + WithKey(a[1..], key, k) == WithKey(a[1..], key, k);
        assert [] + WithKey(b[1..], key, k) == WithKey(b[1..], key, k);
      }
    }
  }

  /** Python's sort contract pins the result down: any sorted stable
      permutation of `s` is `SortBy(s, key)`. */
  lemma SortByIsTheStableSort<T>(s: seq<T>, r: seq<T>, key: T -> real)
    requires SortedBy(r, key) && StablePermutationOf(r, s, key)
    ensures r == SortBy(s, key)
  {
    SortByCorrect(s, key);
    SortedStableUnique(r, SortBy(s, key), key);
  }

  /** When the keys of `a` strictly increase, `a` is the only sorted
      permutation of its elements. */
  lemma {:induction false} StrictlySortedUnique<T>(a: seq<T>, b: seq<T>, key: T -> real)
    requires forall i, j :: 0 <= i < j < |a| ==> key(a[i]) < key(a[j])
    requires SortedBy(b, key) && multiset(a) == multiset(b)
    ensures a == b
    decreases |a|
  {
    assert |b| == |multiset(b)| == |multiset(a)| == |a|;
    if |a| != 0 {
      StrictlySortedTails(a, b, key);
      StrictlySortedUnique(a[1..], b[1..], key);
      assert a == [a[0]] + a[1..] && b == [b[0]] + b[1..];
    }
  }

  /** Both start with the element of smallest key, and what follows meets
      the same conditions. */
  lemma StrictlySortedTails<T>(a: seq<T>, b: seq<T>, key: T -> real)
    requires forall i, j :: 0 <= i < j < |a| ==> key(a[i]) < key(a[j])
    requires SortedBy(b, key) && multiset(a) == multiset(b)
    requires |a| > 0 && |b| > 0
    ensures a[0] == b[0]
    ensures forall i, j :: 0 <= i < j < |a[1..]| ==> key(a[1..][i]) < key(a[1..][j])
    ensures SortedBy(b[1..], key) && multiset(a[1..]) == multiset(b[1..])
  {
    var i := HeadIndex(a, b, key);
    assert i == 0;
    SameTails(a, b);
    StrictTail(a, key);
    SortedTail(b, key);
  }

  lemma SameTails<T>(a: seq<T>, b: seq<T>)
    requires multiset(a) == multiset(b) && |a| > 0 && |b| > 0 && a[0] == b[0]
    ensures multiset(a[1..]) == multiset(b[1..])
  {
    RemoveMatching(a, b, 0);
    assert b[..0] + b[1..] == b[1..];
  }

  lemma StrictTail<T>(a: seq<T>, key: T -> real)
    requires forall i, j :: 0 <= i < j < |a| ==> key(a[i]) < key(a[j])
    requires |a| > 0
    ensures forall i, j :: 0 <= i < j < |a[1..]| ==> key(a[1..][i]) < key(a[1..][j])
  {
    forall i, j | 0 <= i < j < |a[1..]| ensures key(a[1..][i]) < key(a[1..][j]) {
      assert a[1..][i] == a[i + 1] && a[1..][j] == a[j + 1];
    }
  }

  lemma SortedTail<T>(b: seq<T>, key: T -> real)
    requires SortedBy(b, key) && |b| > 0
    ensures SortedBy(b[1..], key)
  {
    forall i, j | 0 <= i < j < |b[1..]| ensures key(b[1..][i]) <= key(b[1..][j]) {
      assert b[1..][i] == b[i + 1] && b[1..][j] == b[j + 1];
    }
  }

  lemma HeadIndex<T>(a: seq<T>, b: seq<T>, key: T -> real) returns (i: nat)
    requires forall i, j :: 0 <= i < j < |a| ==> key(a[i]) < key(a[j])
    requires SortedBy(b, key) && multiset(a) == multiset(b)
    requires |a| > 0 && |b| > 0
    ensures i < |a| && a[i] == b[0] && key(a[i]) <= key(a[0])
  {
    assert b[0] in multiset(a) && a[0] in multiset(b);
    i :| 0 <= i < |a| && a[i] == b[0];
    var j :| 0 <= j < |b| && b[j] == a[0];
    assert key(b[0]) <= key(b[j]);
  }
}
