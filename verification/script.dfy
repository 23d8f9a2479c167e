/** The three sections of the script Python_Transformations/absolute_value.py,
    each on its literal input; the final `print(list3)` is left out. */
module Script {
  import opened AbsoluteValue
  import opened Sorting

  /** The comprehension turns the first literal list `[4, -9, 7, 9]` into
      `[4, 9, 7, 9]`. */
  lemma ComprehensionScenario()
    ensures AbsList([4, -9, 7, 9]) == [4, 9, 7, 9]
  {
  }

  /** Any sorted rearrangement of `[4, 9, 7, 9]` is `[4, 7, 9, 9]`. */
  lemma SortScenario(t: seq<int>)
    requires IsSorted(t) && multiset(t) == multiset([4, 9, 7, 9])
    ensures t == [4, 7, 9, 9]
  {
    var expected := [4, 7, 9, 9];
    assert IsSorted(expected);
    assert multiset(expected) == multiset([4, 9, 7, 9]);
    SortedPermutationUnique(t, expected);
  }

  /** Lines 13-19: the comprehension on the first literal list, then its
      in-place sort. Returns the comprehension result before and after the sort. */
  method ComprehensionSection() returns (comprehension: seq<int>, sorted: seq<int>)
    ensures comprehension == [4, 9, 7, 9]
    ensures sorted == [4, 7, 9, 9]
  {
    var list1 := [4, -9, 7, 9];
    comprehension := AbsList(list1);
    ComprehensionScenario();

    var list2 := new int[4];
    list2[0], list2[1], list2[2], list2[3] := comprehension[0], comprehension[1], comprehension[2], comprehension[3];
    assert list2[..] == [4, 9, 7, 9];
    SortInPlace(list2);
    sorted := list2[..];
    SortScenario(sorted);
  }

  /** Lines 13 and 23: the `map` variant on the same first literal list. */
  method MapSection() returns (mapped: seq<int>)
    ensures mapped == [4, 9, 7, 9]
  {
    var list1 := [4, -9, 7, 9];
    mapped := AbsByMap(list1);
    MapAgreesWithComprehension(list1);
    ComprehensionScenario();
  }

  /** Lines 28-31: the in-place sign-flip loop on the second literal list
      `[4, -9, 7, -5, -4]`. Returns that list as the script prints it. */
  method LoopSection() returns (flipped: seq<int>)
    ensures flipped == [4, 9, 7, 5, 4]
  {
    var list3 := new int[5];
    list3[0], list3[1], list3[2], list3[3], list3[4] := 4, -9, 7, -5, -4;
    assert list3[..] == [4, -9, 7, -5, -4];
    AbsInPlace(list3);
    flipped := list3[..];
    assert flipped[0] == 4 && flipped[1] == 9 && flipped[2] == 7 && flipped[3] == 5 && flipped[4] == 4;
  }
}
