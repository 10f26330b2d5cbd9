/** The distinct elements of a sequence. */
module Distinct {
  import Scan

  function Elements<T>(s: seq<T>): set<T> {
    set x | x in s
  }

  predicate AllDistinct<T(==)>(s: seq<T>) {
    forall i, j | 0 <= i < j < |s| :: s[i] != s[j]
  }

  lemma ElementsStep<T>(s: seq<T>, n: nat)
    requires n < |s|
    ensures Elements(s[..n + 1]) == Elements(s[..n]) + {s[n]}
  {
    Scan.TakeOneMore(s, n);
    assert forall y :: y in s[..n + 1] <==> y in s[..n] || y == s[n];
  }

  /** A sequence has at most as many distinct elements as elements, and as many just when none repeats. */
  lemma {:induction false} ElementsBound<T>(s: seq<T>)
    ensures |Elements(s)| <= |s|
    ensures |Elements(s)| == |s| <==> AllDistinct(s)
  {
    if s != [] {
      var n := |s| - 1;
      var front, last := s[..n], s[n];
      ElementsBound(front);
      ElementsStep(s, n);
      assert s[..n + 1] == s;
      assert AllDistinct(s) <==> AllDistinct(front) && last !in front by { DistinctStep(s); }
      assert last in front <==> last in Elements(front);
    }
  }

  lemma DistinctStep<T>(s: seq<T>)
    requires s != []
    ensures var n := |s| - 1; AllDistinct(s) <==> AllDistinct(s[..n]) && s[n] !in s[..n]
  {
    var n := |s| - 1;
    assert forall i | 0 <= i < n :: s[..n][i] == s[i];
    if AllDistinct(s[..n]) && s[n] !in s[..n] {
      forall i, j | 0 <= i < j < |s| ensures s[i] != s[j] {
        assert s[..n][i] == s[i];
        if j < n { assert s[..n][j] == s[j]; }
      }
    }
  }
}
