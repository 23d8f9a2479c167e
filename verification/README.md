# Absolute value over a list of integers

A Dafny model of `Python_Transformations/absolute_value.py`. This short script
computes the absolute value of every element of an integer list in three ways:
- a list comprehension that applies `abs` to each element;
- the built-in `map` with `abs`, collected into a list;
- an indexed `for` loop that overwrites each negative element of `list3` with
  its negation, in place.

It also sorts the comprehension result in place.

Files:
- `absolute_value.dfy` (module `AbsoluteValue`): Python's `abs` on one integer (`Abs`),
  the comprehension (`AbsList`), `map` (`Map`, `AbsByMap`), and the in-place loop
  (`AbsInPlace`, a method on an `array<int>` with `modifies a`). It also holds the
  lemmas that connect these.
- `sorting.dfy` (module `Sorting`): the in-place sort (`SortInPlace`). Its contract
  is "non-decreasing and the same multiset". A lemma shows that this contract
  fixes the result uniquely.
- `script.dfy` (module `Script`): the script's three sections on its own literals.
  Each one is proved to give the list shown in the script's `# OUTPUT:` comments.

Python integers are unbounded, so the model uses Dafny's `int`. Negation
therefore never overflows.

## Model

| member | source | states |
|---|---|---|
| AbsoluteValue.Abs | Python_Transformations/absolute_value.py:5-9 | the result is non-negative and is either `x` or `-x`; a non-negative `x` (zero included) comes back unchanged |
| AbsoluteValue.AbsList | Python_Transformations/absolute_value.py:16 | the comprehension keeps the input's length; every element is non-negative; element `i` equals `list1[i]` when that is `>= 0` and `-list1[i]` when it is negative |
| AbsoluteValue.Map | Python_Transformations/absolute_value.py:23 | mapping `f` over a list keeps the length and holds `f(xs[i])` at position `i` |
| AbsoluteValue.AbsByMap | Python_Transformations/absolute_value.py:23 | the `map` variant keeps the length, yields only non-negative values, and holds `abs(list1[i])` at position `i` |
| AbsoluteValue.MapAgreesWithComprehension | Python_Transformations/absolute_value.py:16-23 | for every input, the `map` variant and the comprehension variant build the same list |
| AbsoluteValue.AbsListFixesNonNegative | Python_Transformations/absolute_value.py:7-16 | a list with no negative element is returned unchanged by the comprehension |
| AbsoluteValue.AbsListIdempotent | Python_Transformations/absolute_value.py:16 | applying the comprehension to its own output returns that output |
| AbsoluteValue.AbsInPlace | Python_Transformations/absolute_value.py:29-31 | after the loop, the array equals the comprehension of its old contents (so it agrees with both pure variants); positions that held a non-negative value are unchanged; negative ones hold their negation |
| Sorting.SortInPlace | Python_Transformations/absolute_value.py:18 | after the in-place sort the list is non-decreasing and is a permutation (same multiset) of the list before |
| Sorting.SortedPermutationUnique | Python_Transformations/absolute_value.py:18 | two non-decreasing lists with the same multiset are equal, so the sort's result is determined by its input |
| Script.ComprehensionScenario | Python_Transformations/absolute_value.py:13-17 | the comprehension maps `[4, -9, 7, 9]` to `[4, 9, 7, 9]` |
| Script.SortScenario | Python_Transformations/absolute_value.py:18-19 | every sorted permutation of `[4, 9, 7, 9]` is `[4, 7, 9, 9]` |
| Script.ComprehensionSection | Python_Transformations/absolute_value.py:13-19 | the first section gives `[4, 9, 7, 9]` and then, after the in-place sort, `[4, 7, 9, 9]` |
| Script.MapSection | Python_Transformations/absolute_value.py:23-24 | the `map` section gives `[4, 9, 7, 9]` |
| Script.LoopSection | Python_Transformations/absolute_value.py:28-33 | the loop turns the second literal list `[4, -9, 7, -5, -4]` into `[4, 9, 7, 5, 4]` |

## Left out

- The final print (line 32): console output. `Script.LoopSection` returns the list that the script prints.
- Non-integer elements (floats, complex numbers, strings) and the type errors Python raises for them: the script only uses integer literals.
- Fixed-width overflow: Python `int` is unbounded, so no wrap-around is modelled.
- CPython's sort algorithm (Timsort) is not part of this model. `Sorting.SortInPlace` is an insertion sort that meets the same contract: sorted and a permutation. Because that contract determines the result uniquely (`Sorting.SortedPermutationUnique`), the difference cannot be observed on integers.
- The rebinding of the name `list2` at line 23 is a variable reassignment in the script, not behaviour. Each section is modelled as its own method.
- That the pure variants leave `list1` unchanged holds by construction: `AbsList` and `AbsByMap` are functions on values. Python's list aliasing is not modelled.
