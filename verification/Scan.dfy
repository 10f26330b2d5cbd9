/** A pass over rows in which every result may look at the results before it. */
module Scan {

  ghost function Results<R, S>(step: (R, seq<S>) -> S, rows: seq<R>): (results: seq<S>)
    ensures |results| == |rows|
  {
    if rows == [] then []
    else
      var earlier := Results(step, rows[..|rows| - 1]);
      earlier + [step(rows[|rows| - 1], earlier)]
  }

  /** Appending rows never changes an earlier result. */
  lemma {:induction false} PrefixStable<R, S>(step: (R, seq<S>) -> S, rows: seq<R>, more: seq<R>)
    ensures Results(step, rows + more)[..|rows|] == Results(step, rows)
  {
    if more == [] {
      assert rows + more == rows;
    } else {
      var front := more[..|more| - 1];
      assert (rows + more)[..|rows + more| - 1] == rows + front;
      PrefixStable(step, rows, front);
    }
  }

  /** Each result is the step taken on its row and the results of the rows before it. */
  lemma EachStep<R, S>(step: (R, seq<S>) -> S, rows: seq<R>, i: nat)
    requires i < |rows|
    ensures Results(step, rows)[..i] == Results(step, rows[..i])
    ensures Results(step, rows)[i] == step(rows[i], Results(step, rows)[..i])
  {
    var head := rows[..i + 1];
    assert rows[..i] + rows[i..] == rows && head + rows[i + 1..] == rows;
    PrefixStable(step, rows[..i], rows[i..]);
    PrefixStable(step, head, rows[i + 1..]);
    assert head[..|head| - 1] == rows[..i];
    assert Results(step, rows)[i] == Results(step, rows)[..i + 1][i];
  }

  lemma TakeOneMore<T>(s: seq<T>, n: nat)
    requires n < |s|
    ensures s[..n + 1] == s[..n] + [s[n]]
  {
  }
}
