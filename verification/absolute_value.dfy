/** The absolute-value transformer of Python_Transformations/absolute_value.py:
    the `abs` rule on one integer, the two pure whole-list variants (a list
    comprehension and `map`), and the indexed loop that flips the sign of the
    negative elements of a list in place. Python integers are unbounded, so the
    model uses `int` and negation never overflows. */
module AbsoluteValue {

  /** Python's built-in `abs` on an integer: positives come back unchanged,
      negatives come back as their positive version, zero stays zero. */
  function Abs(x: int): (r: int)
    ensures r >= 0
    ensures r == x || r == -x
    ensures x >= 0 ==> r == x
  {
    if x < 0 then -x else x
  }

  /** Every element of `s` is non-negative. */
  predicate AllNonNegative(s: seq<int>) {
    forall i :: 0 <= i < |s| ==> s[i] >= 0
  }

  /** The comprehension variant (absolute_value.py:16): a new list holding, element
      by element, the absolute value of the input. */
  function AbsList(s: seq<int>): (r: seq<int>)
    ensures |r| == |s|
    ensures AllNonNegative(r)
    ensures forall i :: 0 <= i < |s| && s[i] >= 0 ==> r[i] == s[i]
    ensures forall i :: 0 <= i < |s| && s[i] < 0 ==> r[i] == -s[i]
  {
    seq(|s|, i requires 0 <= i < |s| => Abs(s[i]))
  }

  /** Python's built-in `map` collected into a list: `f` applied to every
      element, front to back. */
  function Map(f: int -> int, s: seq<int>): (r: seq<int>)
    ensures |r| == |s|
    ensures forall i :: 0 <= i < |s| ==> r[i] == f(s[i])
  {
    if s == [] then [] else [f(s[0])] + Map(f, s[1..])
  }

  /** The `map` variant (absolute_value.py:23): `abs` mapped over the input. */
  function AbsByMap(s: seq<int>): (r: seq<int>)
    ensures |r| == |s|
    ensures AllNonNegative(r)
    ensures forall i :: 0 <= i < |s| ==> r[i] == Abs(s[i])
  {
    Map(Abs, s)
  }

  /** The comprehension and the `map` variant build the same list from the same
      input. */
  lemma MapAgreesWithComprehension(s: seq<int>)
    ensures AbsByMap(s) == AbsList(s)
  {
  }

  /** A list of non-negative values is a fixed point of the transformer. */
  lemma AbsListFixesNonNegative(s: seq<int>)
    requires AllNonNegative(s)
    ensures AbsList(s) == s
  {
  }

  /** Applying the transformer to its own output changes nothing: every output
      element is non-negative, and `abs` returns a non-negative number as it is. */
  lemma AbsListIdempotent(s: seq<int>)
    ensures AbsList(AbsList(s)) == AbsList(s)
  {
  }

  /** The indexed loop (absolute_value.py:29-31): each negative element is
      replaced by its negation, in place; the others are left alone. Afterwards
      the array holds what the comprehension would have built from its old
      contents. */
  method AbsInPlace(a: array<int>)
    modifies a
    ensures a[..] == AbsList(old(a[..]))
    ensures forall i :: 0 <= i < a.Length && old(a[i]) >= 0 ==> a[i] == old(a[i])
    ensures forall i :: 0 <= i < a.Length && old(a[i]) < 0 ==> a[i] == -old(a[i])
  {
    for i := 0 to a.Length
      invariant forall j :: 0 <= j < i ==> a[j] == Abs(old(a[j]))
      invariant forall j :: i <= j < a.Length ==> a[j] == old(a[j])
    {
      if a[i] < 0 {
        a[i] := a[i] * -1;
      }
    }
    assert forall j :: 0 <= j < a.Length ==> a[..][j] == AbsList(old(a[..]))[j];
  }
}
