/** Finite sums over sequences. */
module Sums {

  function Sum<T>(xs: seq<T>, f: T -> nat): nat {
    if xs == [] then 0 else Sum(xs[..|xs| - 1], f) + f(xs[|xs| - 1])
  }

  lemma {:induction false} SumConcat<T>(xs: seq<T>, ys: seq<T>, f: T -> nat)
    ensures Sum(xs + ys, f) == Sum(xs, f) + Sum(ys, f)
  {
    if ys == [] {
      assert xs + ys == xs;
    } else {
      var front := ys[..|ys| - 1];
      assert (xs + ys)[..|xs + ys| - 1] == xs + front;
      SumConcat(xs, front, f);
    }
  }

  lemma SumOne<T>(x: T, f: T -> nat)
    ensures Sum([x], f) == f(x)
  {
    assert Sum([x][..0], f) == 0;
  }

  lemma SumAppend<T>(xs: seq<T>, x: T, f: T -> nat)
    ensures Sum(xs + [x], f) == Sum(xs, f) + f(x)
  {
    SumConcat(xs, [x], f);
    SumOne(x, f);
  }

  lemma SumReplace<T>(xs: seq<T>, i: nat, x: T, f: T -> nat)
    requires i < |xs|
    ensures Sum(xs[i := x], f) + f(xs[i]) == Sum(xs, f) + f(x)
  {
    var a, b := xs[..i], xs[i + 1..];
    assert xs == a + [xs[i]] + b && xs[i := x] == a + [x] + b;
    SumConcat(a + [xs[i]], b, f);
    SumConcat(a + [x], b, f);
    SumAppend(a, xs[i], f);
    SumAppend(a, x, f);
  }

  lemma {:induction false} SumAtMost<T>(xs: seq<T>, f: T -> nat, g: T -> nat)
    requires forall x | x in xs :: f(x) <= g(x)
    ensures Sum(xs, f) <= Sum(xs, g)
  {
    if xs != [] {
      assert forall x | x in xs[..|xs| - 1] :: x in xs;
      SumAtMost(xs[..|xs| - 1], f, g);
    }
  }

  lemma {:induction false} SumOfSums<T>(xs: seq<T>, f: T -> nat, g: T -> nat, h: T -> nat, k: T -> nat)
    requires forall x | x in xs :: f(x) + g(x) == h(x) + k(x)
    ensures Sum(xs, f) + Sum(xs, g) == Sum(xs, h) + Sum(xs, k)
  {
    if xs != [] {
      assert forall x | x in xs[..|xs| - 1] :: x in xs;
      SumOfSums(xs[..|xs| - 1], f, g, h, k);
    }
  }
}
