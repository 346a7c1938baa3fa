/**
 * `pages.sort((a, b) => a - b)`: JavaScript's in-place sort with a numeric
 * comparator. Its result on numbers is fully determined (ascending order, same
 * multiset), so it is specified here by insertion sort, and the lemma
 * SortedPermutationsEqual shows that any sort meeting that description returns
 * the same sequence.
 */
module NumericSort {

  predicate Sorted(s: seq<int>) {
    forall i, j :: 0 <= i < j < |s| ==> s[i] <= s[j]
  }

  /** Every element of `s` is at least `b`. */
  predicate AtLeast(b: int, s: seq<int>) {
    forall k :: 0 <= k < |s| ==> b <= s[k]
  }

  /** A lower bound carries over to any rearrangement. */
  lemma AtLeastRearranged(b: int, s: seq<int>, t: seq<int>)
    requires AtLeast(b, t) && multiset(s) == multiset(t)
    ensures AtLeast(b, s)
  {
    forall k | 0 <= k < |s| ensures b <= s[k] {
      assert s[k] in multiset(t);
    }
  }

  /** Putting a lower bound in front of an ascending sequence keeps it ascending. */
  lemma SortedCons(h: int, t: seq<int>)
    requires Sorted(t) && AtLeast(h, t)
    ensures Sorted([h] + t)
  {
    forall i, j | 0 <= i < j < |[h] + t| ensures ([h] + t)[i] <= ([h] + t)[j] {
      if i > 0 {
        assert ([h] + t)[i] == t[i - 1];
      }
      assert ([h] + t)[j] == t[j - 1];
    }
  }

  /** Inserts `x` into the ascending sequence `s`. */
  function Insert(x: int, s: seq<int>): (r: seq<int>)
    requires Sorted(s)
    ensures Sorted(r)
    ensures multiset(r) == multiset(s) + multiset{x}
    ensures |r| == |s| + 1
  {
    if s == [] then [x]
    else if x <= s[0] then [x] + s
    else
      var rest := Insert(x, s[1..]);
      assert s == [s[0]] + s[1..];
      assert AtLeast(s[0], s[1..] + [x]);
      AtLeastRearranged(s[0], rest, s[1..] + [x]);
      SortedCons(s[0], rest);
      [s[0]] + rest
  }

  /** The ascending rearrangement of `s`. */
  function Sort(s: seq<int>): (r: seq<int>)
    ensures Sorted(r)
    ensures multiset(r) == multiset(s)
    ensures |r| == |s|
  {
    if s == [] then []
    else
      assert s == [s[0]] + s[1..];
      Insert(s[0], Sort(s[1..]))
  }

  /** Two ascending sequences with the same elements are equal. */
  lemma {:induction false} SortedPermutationsEqual(a: seq<int>, b: seq<int>)
    requires Sorted(a) && Sorted(b)
    requires multiset(a) == multiset(b)
    ensures a == b
  {
    assert |a| == |multiset(a)| == |multiset(b)| == |b|;
    if a != [] {
      assert a == [a[0]] + a[1..];
      assert b == [b[0]] + b[1..];
      assert a[0] in multiset(b);
      assert b[0] in multiset(a);
      var i :| 0 <= i < |b| && b[i] == a[0];
      var j :| 0 <= j < |a| && a[j] == b[0];
      assert b[0] <= a[0] && a[0] <= b[0];
      assert multiset(a[1..]) == multiset(a) - multiset{a[0]};
      assert multiset(b[1..]) == multiset(b) - multiset{b[0]};
      SortedPermutationsEqual(a[1..], b[1..]);
    }
  }

  /** Any sort that orders ascending and keeps the elements returns `Sort(s)`. */
  lemma SortIsTheOnlySort(s: seq<int>, r: seq<int>)
    requires Sorted(r) && multiset(r) == multiset(s)
    ensures r == Sort(s)
  {
    SortedPermutationsEqual(r, Sort(s));
  }

  /** Sorting an ascending sequence leaves it as it is; in particular sorting twice is sorting once. */
  lemma SortKeepsSorted(s: seq<int>)
    requires Sorted(s)
    ensures Sort(s) == s
  {
    SortedPermutationsEqual(s, Sort(s));
  }
}
