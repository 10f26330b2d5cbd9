/** Searching an endless list of choices for the first one that is free. */
module Probe {

  /** From the third choice on, no two choices are the same. */
  ghost predicate EventuallyDistinct<T(!new)>(choice: nat -> T) {
    forall j, k | 2 <= j < k :: choice(j) != choice(k)
  }

  /** Pigeonhole: a finite set cannot hold more of the distinct choices than it has elements. */
  lemma {:induction false} Bound<T(!new)>(choice: nat -> T, used: set<T>, end: nat)
    requires EventuallyDistinct(choice)
    requires forall j | 2 <= j < end :: choice(j) in used
    ensures end <= |used| + 2
  {
    if end > 2 {
      var last := choice(end - 1);
      assert forall j | 2 <= j < end - 1 :: choice(j) in used - {last};
      Bound(choice, used - {last}, end - 1);
    }
  }

  /** The index of the first free choice, given that none before `k` is free; the search ends. */
  ghost function FirstFree<T(!new)>(choice: nat -> T, used: set<T>, k: nat): (n: nat)
    requires EventuallyDistinct(choice)
    requires forall j | 0 <= j < k :: choice(j) in used
    ensures k <= n <= |used| + 2
    ensures choice(n) !in used
    ensures forall j | 0 <= j < n :: choice(j) in used
    decreases |used| + 2 - k
  {
    Bound(choice, used, k);
    if choice(k) !in used then k
    else
      Bound(choice, used, k + 1);
      FirstFree(choice, used, k + 1)
  }

  lemma FirstFreeIs<T(!new)>(choice: nat -> T, used: set<T>, n: nat)
    requires EventuallyDistinct(choice)
    requires choice(n) !in used && forall j | 0 <= j < n :: choice(j) in used
    ensures FirstFree(choice, used, 0) == n
  {
    assert choice(FirstFree(choice, used, 0)) !in used;
  }
}
