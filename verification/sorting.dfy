/** Python's in-place list sort on a list of integers, as the script applies it to the
    comprehension result: the list is reordered in place into non-decreasing
    order. CPython's own algorithm is not modelled; any in-place sort meets the
    same contract, and this one is an insertion sort by adjacent swaps. */
module Sorting {

  /** `s` is in non-decreasing order. */
  predicate IsSorted(s: seq<int>) {
    forall p, q :: 0 <= p < q < |s| ==> s[p] <= s[q]
  }

  /** Sorts `a` in place: the result is non-decreasing and holds the same
      multiset of values as before. */
  method SortInPlace(a: array<int>)
    modifies a
    ensures IsSorted(a[..])
    ensures multiset(a[..]) == multiset(old(a[..]))
  {
    var i := 0;
    while i < a.Length
      invariant 0 <= i <= a.Length
      invariant forall p, q :: 0 <= p < q < i ==> a[p] <= a[q]
      invariant multiset(a[..]) == multiset(old(a[..]))
    {
      var j := i;
      while 0 < j && a[j] < a[j - 1]
        invariant 0 <= j <= i
        invariant forall p, q :: 0 <= p < q <= i && p != j && q != j ==> a[p] <= a[q]
        invariant forall q :: j < q <= i ==> a[j] <= a[q]
        invariant multiset(a[..]) == multiset(old(a[..]))
      {
        a[j - 1], a[j] := a[j], a[j - 1];
        j := j - 1;
      }
      i := i + 1;
    }
  }

  /** Two sorted lists with the same multiset of values are the same list, so
      the contract of `SortInPlace` fixes its result completely. */
  lemma {:induction false} SortedPermutationUnique(t: seq<int>, u: seq<int>)
    requires IsSorted(t) && IsSorted(u)
    requires multiset(t) == multiset(u)
    ensures t == u
    decreases |t|
  {
    assert |t| == |multiset(t)| == |multiset(u)| == |u|;
    if t != [] {
      assert t[0] in multiset(u);
      assert u[0] in multiset(t);
      assert t[0] == u[0];
      assert t == [t[0]] + t[1..];
      assert u == [u[0]] + u[1..];
      assert multiset(t[1..]) == multiset(t) - multiset{t[0]};
      assert multiset(u[1..]) == multiset(u) - multiset{u[0]};
      SortedPermutationUnique(t[1..], u[1..]);
    }
  }
}
