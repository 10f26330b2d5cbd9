/** A table under one unique key, filled row by row: an insert whose key is taken leaves it as it is. */
module UniqueTable {

  ghost function Keys<T, K>(key: T -> K, rows: seq<T>): set<K> {
    set e | e in rows :: key(e)
  }

  /** One insert under the unique key. */
  ghost function Store<T, K>(key: T -> K, rows: seq<T>, e: T): seq<T> {
    if key(e) in Keys(key, rows) then rows else rows + [e]
  }

  ghost function StoreAll<T, K>(key: T -> K, rows: seq<T>, inputs: seq<T>): seq<T>
    decreases |inputs|
  {
    if inputs == [] then rows else StoreAll(key, Store(key, rows, inputs[0]), inputs[1..])
  }

  /** Input `i` is the first one with its key. */
  ghost predicate IsFirst<T, K>(key: T -> K, inputs: seq<T>, i: nat)
    requires i < |inputs|
  {
    forall j | 0 <= j < i :: key(inputs[j]) != key(inputs[i])
  }

  lemma {:induction false} StoreAllOneMore<T, K>(key: T -> K, rows: seq<T>, inputs: seq<T>, e: T)
    ensures StoreAll(key, rows, inputs + [e]) == Store(key, StoreAll(key, rows, inputs), e)
    decreases |inputs|
  {
    if inputs == [] {
      assert StoreAll(key, Store(key, rows, e), []) == Store(key, rows, e);
      assert ([e])[1..] == [];
    } else {
      assert (inputs + [e])[1..] == inputs[1..] + [e];
      StoreAllOneMore(key, Store(key, rows, inputs[0]), inputs[1..], e);
    }
  }

  /** The positions of the inputs that are the first with their key. */
  ghost function FirstPositions<T, K>(key: T -> K, inputs: seq<T>): (positions: seq<nat>)
    ensures forall k | 0 <= k < |positions| :: positions[k] < |inputs|
    ensures forall k, l | 0 <= k < l < |positions| :: positions[k] < positions[l]
  {
    if inputs == [] then []
    else
      var n := |inputs| - 1;
      FirstPositions(key, inputs[..n]) + if key(inputs[n]) in Keys(key, inputs[..n]) then [] else [n]
  }

  /** The inputs at these positions, in this order. */
  ghost function Pick<T>(inputs: seq<T>, positions: seq<nat>): seq<T>
    requires forall k | 0 <= k < |positions| :: positions[k] < |inputs|
  {
    seq(|positions|, k requires 0 <= k < |positions| => inputs[positions[k]])
  }

  lemma {:induction false} FirstPositionsAreFirst<T, K>(key: T -> K, inputs: seq<T>, i: nat)
    requires i < |inputs|
    ensures i in FirstPositions(key, inputs) <==> IsFirst(key, inputs, i)
  {
    var n := |inputs| - 1;
    var front, e := inputs[..n], inputs[n];
    assert inputs == front + [e];
    if i < n {
      FirstPositionsAreFirst(key, front, i);
      assert IsFirst(key, front, i) <==> IsFirst(key, inputs, i);
    } else {
      FirstMeansNewKey(key, front, e);
      assert n !in FirstPositions(key, front);
    }
  }

  lemma {:induction false} StoredKeys<T, K>(key: T -> K, inputs: seq<T>)
    ensures Keys(key, StoreAll(key, [], inputs)) == Keys(key, inputs)
  {
    if inputs != [] {
      var front, e := inputs[..|inputs| - 1], inputs[|inputs| - 1];
      assert inputs == front + [e];
      StoreAllOneMore(key, [], front, e);
      StoredKeys(key, front);
      KeysOneMore(key, front, e);
      KeysOneMore(key, StoreAll(key, [], front), e);
    }
  }

  /** What is stored are exactly those, in the order they came. */
  lemma {:induction false} StoresFirstInputs<T, K>(key: T -> K, inputs: seq<T>)
    ensures StoreAll(key, [], inputs) == Pick(inputs, FirstPositions(key, inputs))
  {
    if inputs != [] {
      var front, e := inputs[..|inputs| - 1], inputs[|inputs| - 1];
      assert inputs == front + [e];
      StoresFirstInputs(key, front);
      StoredKeys(key, front);
      StoreAllOneMore(key, [], front, e);
    }
  }

  lemma KeysOneMore<T, K>(key: T -> K, rows: seq<T>, e: T)
    ensures Keys(key, rows + [e]) == Keys(key, rows) + {key(e)}
  {
    assert forall x :: x in rows + [e] <==> x in rows || x == e;
  }

  lemma FirstMeansNewKey<T, K>(key: T -> K, front: seq<T>, e: T)
    ensures IsFirst(key, front + [e], |front|) <==> key(e) !in Keys(key, front)
  {
    var all := front + [e];
    assert forall j | 0 <= j < |front| :: all[j] == front[j] && front[j] in front;
  }

  /** Nothing stored is ever lost or changed. */
  lemma {:induction false} Grows<T, K>(key: T -> K, rows: seq<T>, inputs: seq<T>)
    ensures rows <= StoreAll(key, rows, inputs)
    decreases |inputs|
  {
    if inputs != [] { Grows(key, Store(key, rows, inputs[0]), inputs[1..]); }
  }

  /** Inputs change nothing exactly when all their keys are taken. */
  lemma {:induction false} ReplaysChangeNothing<T, K>(key: T -> K, rows: seq<T>, inputs: seq<T>)
    ensures StoreAll(key, rows, inputs) == rows <==> Keys(key, inputs) <= Keys(key, rows)
    decreases |inputs|
  {
    if inputs != [] {
      var e, rest := inputs[0], inputs[1..];
      assert forall x :: x in inputs <==> x == e || x in rest;
      assert Keys(key, inputs) == {key(e)} + Keys(key, rest);
      if key(e) in Keys(key, rows) {
        ReplaysChangeNothing(key, rows, rest);
      } else {
        Grows(key, rows + [e], rest);
      }
    }
  }

  ghost predicate DistinctKeys<T, K>(key: T -> K, inputs: seq<T>) {
    forall i, j | 0 <= i < j < |inputs| :: key(inputs[i]) != key(inputs[j])
  }

  lemma DistinctOneMore<T, K>(key: T -> K, front: seq<T>, e: T)
    ensures DistinctKeys(key, front + [e]) <==> DistinctKeys(key, front) && key(e) !in Keys(key, front)
  {
    FirstMeansNewKey(key, front, e);
    var all := front + [e];
    assert forall i | 0 <= i < |front| :: all[i] == front[i];
    if DistinctKeys(key, all) {
      assert IsFirst(key, all, |front|);
    }
  }

  lemma {:induction false} StoredDistinct<T, K>(key: T -> K, inputs: seq<T>)
    ensures DistinctKeys(key, StoreAll(key, [], inputs)) && |StoreAll(key, [], inputs)| <= |inputs|
  {
    if inputs != [] {
      var front, e := inputs[..|inputs| - 1], inputs[|inputs| - 1];
      assert inputs == front + [e];
      StoreAllOneMore(key, [], front, e);
      StoredDistinct(key, front);
      FirstMeansNewKey(key, StoreAll(key, [], front), e);
    }
  }

  /** Nothing is turned away exactly when no two inputs share a key. */
  lemma {:induction false} AllStoredIffDistinct<T, K>(key: T -> K, inputs: seq<T>)
    ensures StoreAll(key, [], inputs) == inputs <==> DistinctKeys(key, inputs)
  {
    StoredDistinct(key, inputs);
    if inputs != [] && DistinctKeys(key, inputs) {
      var front, e := inputs[..|inputs| - 1], inputs[|inputs| - 1];
      assert inputs == front + [e];
      StoreAllOneMore(key, [], front, e);
      AllStoredIffDistinct(key, front);
      assert IsFirst(key, inputs, |front|);
      FirstMeansNewKey(key, front, e);
    }
  }
}
