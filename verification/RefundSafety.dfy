/** What the refund protocol keeps true over every run: conservation, exactly-once posting, coverage. */
module RefundSafety {
  import opened Wrappers
  import opened Sums
  import opened RefundProtocol

  // ----- Figures that an operation contributes once it is finalized -----

  function FinalTotal(): Operation -> nat {
    (op: Operation) => if op.finalized then op.total else 0
  }

  function FinalQuantity(i: nat): Operation -> nat {
    (op: Operation) => if op.finalized && i < |op.quantities| then op.quantities[i] else 0
  }

  function FinalShare(p: nat): Operation -> nat {
    (op: Operation) => if op.finalized then ShareOf(op.shares, p) else 0
  }

  function AmountOf(): Entry -> nat {
    (e: Entry) => e.amount
  }

  /** The ledger entries of one operation. */
  function EntriesOf(ledger: seq<Entry>, o: nat): seq<Entry> {
    if ledger == [] then []
    else
      var e := ledger[|ledger| - 1];
      EntriesOf(ledger[..|ledger| - 1], o) + if e.operation == o then [e] else []
  }

  // ----- The invariant -----

  predicate TermsFit(s: Sale, quantities: seq<nat>, total: nat, shares: seq<Share>) {
    && |quantities| == |s.sold| && total > 0
    && ShareTotal(shares) == total && Ordered(shares, 0, |s.payments|)
  }

  predicate OperationFits(s: Sale, op: Operation) {
    && TermsFit(s, op.quantities, op.total, op.shares)
    && |op.legs| == |op.shares|
    && (op.status in {TaxPending, Completed} ==> op.finalized && AllSucceeded(op.legs))
  }

  ghost predicate Shaped(s: Sale) {
    && |s.returned| == |s.sold|
    && (forall o | 0 <= o < |s.operations| :: OperationFits(s, s.operations[o]))
    && (forall q | 0 <= q < |s.quotes| ::
          TermsFit(s, s.quotes[q].quantities, s.quotes[q].total, s.quotes[q].shares) &&
          s.quotes[q].orderVersion <= s.version)
  }

  /** The sale's own figures are exactly those of its finalized operations, and within the sale. */
  ghost predicate Balanced(s: Sale) {
    && s.refunded == Sum(s.operations, FinalTotal()) <= s.total
    && |s.returned| == |s.sold|
    && (forall i | 0 <= i < |s.sold| :: s.returned[i] == Sum(s.operations, FinalQuantity(i)) <= s.sold[i])
  }

  /** The ledger holds the shares of each finalized operation, once, and nothing else. */
  ghost predicate Recorded(s: Sale) {
    && (forall o: nat :: EntriesOf(s.ledger, o) ==
          if o < |s.operations| && s.operations[o].finalized then Entries(o, s.operations[o].shares) else [])
    && Sum(s.ledger, AmountOf()) == Sum(s.operations, FinalTotal())
    && (forall p: nat :: LedgerOf(s.ledger, p) == Sum(s.operations, FinalShare(p)))
  }

  ghost predicate Inv(s: Sale) {
    Shaped(s) && Balanced(s) && Recorded(s)
  }

  lemma ZeroSum<T>(xs: seq<T>, f: T -> nat)
    requires xs == []
    ensures Sum(xs, f) == 0
  {
  }

  lemma FreshInv(total: nat, sold: seq<nat>, payments: seq<Payment>)
    ensures Inv(FreshSale(total, sold, payments))
  {
  }

  // ----- Posting -----

  lemma {:induction false} EntriesOfConcat(a: seq<Entry>, b: seq<Entry>, o: nat)
    ensures EntriesOf(a + b, o) == EntriesOf(a, o) + EntriesOf(b, o)
  {
    if b == [] {
      assert a + b == a;
    } else {
      var front := b[..|b| - 1];
      assert (a + b)[..|a + b| - 1] == a + front;
      EntriesOfConcat(a, front, o);
    }
  }

  lemma {:induction false} EntriesOfEntries(o: nat, shares: seq<Share>, other: nat)
    ensures EntriesOf(Entries(o, shares), other) == if o == other then Entries(o, shares) else []
  {
    if shares != [] {
      var front := shares[..|shares| - 1];
      assert Entries(o, shares)[..|shares| - 1] == Entries(o, front);
      EntriesOfEntries(o, front, other);
    }
  }

  lemma {:induction false} EntriesAmounts(o: nat, shares: seq<Share>, p: nat)
    ensures LedgerOf(Entries(o, shares), p) == ShareOf(shares, p)
    ensures Sum(Entries(o, shares), AmountOf()) == ShareTotal(shares)
  {
    if shares != [] {
      var front := shares[..|shares| - 1];
      assert Entries(o, shares)[..|shares| - 1] == Entries(o, front);
      EntriesAmounts(o, front, p);
    }
  }

  lemma {:induction false} NoEntriesNotPosted(ledger: seq<Entry>, o: nat, payment: nat)
    requires EntriesOf(ledger, o) == []
    ensures !Posted(ledger, o, payment)
  {
    if ledger != [] {
      var front, e := ledger[..|ledger| - 1], ledger[|ledger| - 1];
      NoEntriesNotPosted(front, o, payment);
      assert forall x :: x in ledger <==> x in front || x == e;
    }
  }

  /** For an operation that has no entries yet, posting appends one entry per share. */
  lemma {:induction false} PostAppends(ledger: seq<Entry>, o: nat, shares: seq<Share>)
    requires forall i | 0 <= i < |shares| :: !Posted(ledger, o, shares[i].payment)
    requires forall i, j | 0 <= i < j < |shares| :: shares[i].payment < shares[j].payment
    ensures PostMissing(ledger, o, shares) == ledger + Entries(o, shares)
    decreases |shares|
  {
    if shares == [] {
      assert Entries(o, shares) == [];
    } else {
      var e := Entry(o, shares[0].payment, shares[0].amount);
      var rest := shares[1..];
      forall i | 0 <= i < |rest|
        ensures !Posted(ledger + [e], o, rest[i].payment)
      {
        assert rest[i] == shares[i + 1];
        assert forall x :: x in ledger + [e] <==> x in ledger || x == e;
      }
      PostAppends(ledger + [e], o, rest);
      assert Entries(o, shares) == [e] + Entries(o, rest);
    }
  }

  lemma PostingRecords(s: Sale, o: nat)
    requires Inv(s) && o < |s.operations| && !s.operations[o].finalized
    ensures PostMissing(s.ledger, o, s.operations[o].shares) == s.ledger + Entries(o, s.operations[o].shares)
  {
    var shares := s.operations[o].shares;
    assert OperationFits(s, s.operations[o]);
    forall i | 0 <= i < |shares|
      ensures !Posted(s.ledger, o, shares[i].payment)
    {
      NoEntriesNotPosted(s.ledger, o, shares[i].payment);
    }
    PostAppends(s.ledger, o, shares);
  }

  // ----- Every step keeps the invariant -----

  /** The same refund, whatever became of its legs and status. */
  predicate SameTerms(a: Operation, b: Operation) {
    && a.key == b.key && a.quote == b.quote
    && a.quantities == b.quantities && a.total == b.total && a.shares == b.shares && a.scenario == b.scenario
  }

  predicate SameSale(s: Sale, after: Sale) {
    s.total == after.total && s.sold == after.sold && s.payments == after.payments
  }

  /** Operation `o` moved on, and the sale's books did not. */
  ghost predicate Progress(s: Sale, after: Sale, o: nat) {
    && o < |s.operations| && o < |after.operations| && SameSale(s, after)
    && after.operations == s.operations[o := after.operations[o]]
    && SameTerms(s.operations[o], after.operations[o])
    && after.operations[o].finalized == s.operations[o].finalized
    && OperationFits(s, after.operations[o])
    && after.quotes == s.quotes && after.version == s.version && after.refunded == s.refunded
    && after.returned == s.returned && after.ledger == s.ledger && after.status == s.status
  }

  lemma ProgressShaped(s: Sale, after: Sale, o: nat)
    requires Inv(s) && Progress(s, after, o)
    ensures Shaped(after)
  {
    forall k | 0 <= k < |after.operations| ensures OperationFits(after, after.operations[k]) {
      assert OperationFits(s, s.operations[k]);
    }
  }

  lemma ProgressBalanced(s: Sale, after: Sale, o: nat)
    requires Inv(s) && Progress(s, after, o)
    ensures Balanced(after)
  {
    hide Sum;
    var op := after.operations[o];
    SumReplace(s.operations, o, op, FinalTotal());
    forall i: nat ensures Sum(after.operations, FinalQuantity(i)) == Sum(s.operations, FinalQuantity(i)) {
      SumReplace(s.operations, o, op, FinalQuantity(i));
    }
  }

  lemma ProgressRecorded(s: Sale, after: Sale, o: nat)
    requires Inv(s) && Progress(s, after, o)
    ensures Recorded(after)
  {
    hide Sum;
    var op := after.operations[o];
    SumReplace(s.operations, o, op, FinalTotal());
    forall p: nat ensures Sum(after.operations, FinalShare(p)) == Sum(s.operations, FinalShare(p)) {
      SumReplace(s.operations, o, op, FinalShare(p));
    }
  }

  lemma ProgressKeeps(s: Sale, after: Sale, o: nat)
    requires Inv(s) && Progress(s, after, o)
    ensures Inv(after)
  {
    ProgressShaped(s, after, o);
    ProgressBalanced(s, after, o);
    ProgressRecorded(s, after, o);
  }

  lemma FinalizeShaped(s: Sale, o: nat, legs: seq<Leg>, env: Environment)
    requires Inv(s) && o < |s.operations| && |legs| == |s.operations[o].shares|
    requires AllSucceeded(legs) && Finalize(s, o, legs, env).Ok?
    ensures Shaped(Finalize(s, o, legs, env).value)
  {
    var after := Finalize(s, o, legs, env).value;
    forall k | 0 <= k < |after.operations| ensures OperationFits(after, after.operations[k]) {
      assert OperationFits(s, s.operations[k]);
    }
  }

  lemma FinalizeBalances(s: Sale, o: nat, legs: seq<Leg>, env: Environment)
    requires Inv(s) && o < |s.operations| && !s.operations[o].finalized && Finalize(s, o, legs, env).Ok?
    ensures Balanced(Finalize(s, o, legs, env).value)
  {
    hide Sum;
    var after := Finalize(s, o, legs, env).value;
    var op := after.operations[o];
    SumReplace(s.operations, o, op, FinalTotal());
    forall i | 0 <= i < |s.sold|
      ensures after.returned[i] == Sum(after.operations, FinalQuantity(i)) <= s.sold[i]
    {
      SumReplace(s.operations, o, op, FinalQuantity(i));
    }
  }

  lemma FinalizeLedger(s: Sale, o: nat, legs: seq<Leg>, env: Environment)
    requires Inv(s) && o < |s.operations| && !s.operations[o].finalized && Finalize(s, o, legs, env).Ok?
    ensures Finalize(s, o, legs, env).value.ledger == s.ledger + Entries(o, s.operations[o].shares)
  {
    PostingRecords(s, o);
  }

  lemma FinalizeFrame(s: Sale, o: nat, legs: seq<Leg>, env: Environment)
    requires o < |s.operations| && Finalize(s, o, legs, env).Ok?
    ensures var after := Finalize(s, o, legs, env).value;
            && SameSale(s, after) && after.version == s.version + 1 && after.quotes == s.quotes
            && |after.operations| == |s.operations| && after.operations == s.operations[o := after.operations[o]]
            && SameTerms(s.operations[o], after.operations[o]) && after.operations[o].finalized
            && after.operations[o].legs == legs
  {
  }

  lemma FinalizeEntries(s: Sale, o: nat, legs: seq<Leg>, env: Environment, k: nat)
    requires Inv(s) && o < |s.operations| && !s.operations[o].finalized && Finalize(s, o, legs, env).Ok?
    ensures var after := Finalize(s, o, legs, env).value;
            EntriesOf(after.ledger, k) ==
            if k < |after.operations| && after.operations[k].finalized
            then Entries(k, after.operations[k].shares) else []
  {
    hide Finalize, EntriesOf, Sum;
    var shares := s.operations[o].shares;
    FinalizeFrame(s, o, legs, env);
    FinalizeLedger(s, o, legs, env);
    EntriesOfConcat(s.ledger, Entries(o, shares), k);
    EntriesOfEntries(o, shares, k);
  }

  lemma FinalizePosts(s: Sale, o: nat, legs: seq<Leg>, env: Environment, p: nat)
    requires Inv(s) && o < |s.operations| && !s.operations[o].finalized && Finalize(s, o, legs, env).Ok?
    ensures var after := Finalize(s, o, legs, env).value;
            && LedgerOf(after.ledger, p) == Sum(after.operations, FinalShare(p))
            && Sum(after.ledger, AmountOf()) == Sum(after.operations, FinalTotal())
  {
    hide Sum;
    var after := Finalize(s, o, legs, env).value;
    var op, entries := after.operations[o], Entries(o, s.operations[o].shares);
    assert OperationFits(s, s.operations[o]);
    FinalizeLedger(s, o, legs, env);
    SumReplace(s.operations, o, op, FinalTotal());
    SumReplace(s.operations, o, op, FinalShare(p));
    SumConcat(s.ledger, entries, AmountOf());
    SumConcat(s.ledger, entries, PostedOf(p));
    EntriesAmounts(o, op.shares, p);
  }

  lemma FinalizeRecords(s: Sale, o: nat, legs: seq<Leg>, env: Environment)
    requires Inv(s) && o < |s.operations| && !s.operations[o].finalized && Finalize(s, o, legs, env).Ok?
    ensures Recorded(Finalize(s, o, legs, env).value)
  {
    hide Finalize, Sum, EntriesOf;
    var after := Finalize(s, o, legs, env).value;
    forall k: nat
      ensures EntriesOf(after.ledger, k) ==
              if k < |after.operations| && after.operations[k].finalized
              then Entries(k, after.operations[k].shares) else []
    {
      FinalizeEntries(s, o, legs, env, k);
    }
    FinalizePosts(s, o, legs, env, 0);
    forall p: nat ensures LedgerOf(after.ledger, p) == Sum(after.operations, FinalShare(p)) {
      FinalizePosts(s, o, legs, env, p);
    }
  }

  lemma DerivedNotSettled(before: OperationStatus, legs: seq<Leg>)
    requires legs != [] && !AllSucceeded(legs)
    ensures DeriveStatus(before, legs) !in {TaxPending, Completed}
  {
    var i :| 0 <= i < |legs| && legs[i].status != Succeeded;
    assert Has(legs, legs[i].status);
  }

  lemma SharesNotEmpty(s: Sale, quantities: seq<nat>, total: nat, shares: seq<Share>)
    requires TermsFit(s, quantities, total, shares)
    ensures shares != []
  {
    ZeroSum(shares[..0], (share: Share) => share.amount);
  }

  lemma SettleProgresses(s: Sale, o: nat, legs: seq<Leg>, env: Environment)
    requires Inv(s) && o < |s.operations| && |legs| == |s.operations[o].shares|
    requires !AllSucceeded(legs) || s.operations[o].finalized
    ensures Settle(s, o, legs, env).Ok? && Progress(s, Settle(s, o, legs, env).value, o)
  {
    hide DeriveStatus, Balanced, Recorded, Sum;
    var op := s.operations[o];
    assert OperationFits(s, op);
    SharesNotEmpty(s, op.quantities, op.total, op.shares);
    if !AllSucceeded(legs) { DerivedNotSettled(op.status, legs); }
  }

  lemma SettleKeeps(s: Sale, o: nat, legs: seq<Leg>, env: Environment)
    requires Inv(s) && o < |s.operations| && |legs| == |s.operations[o].shares|
    requires Settle(s, o, legs, env).Ok?
    ensures Inv(Settle(s, o, legs, env).value)
  {
    hide DeriveStatus, Progress;
    if AllSucceeded(legs) && !s.operations[o].finalized {
      hide Finalize;
      FinalizeShaped(s, o, legs, env);
      FinalizeBalances(s, o, legs, env);
      FinalizeRecords(s, o, legs, env);
    } else {
      hide Settle, Inv;
      SettleProgresses(s, o, legs, env);
      ProgressKeeps(s, Settle(s, o, legs, env).value, o);
    }
  }

  lemma BeginShaped(s: Sale, key: string, q: nat, scenario: Scenario)
    requires Inv(s) && q < |s.quotes| && SharesValid(s, s.quotes[q].shares)
    ensures Shaped(Begin(s, key, q, scenario))
  {
    var after := Begin(s, key, q, scenario);
    forall k | 0 <= k < |after.operations| ensures OperationFits(after, after.operations[k]) {
      if k < |s.operations| { assert OperationFits(s, s.operations[k]); }
    }
  }

  lemma BeginSums(s: Sale, key: string, q: nat, scenario: Scenario, n: nat)
    requires Inv(s) && q < |s.quotes| && SharesValid(s, s.quotes[q].shares)
    ensures var after := Begin(s, key, q, scenario);
            && Sum(after.operations, FinalTotal()) == Sum(s.operations, FinalTotal())
            && Sum(after.operations, FinalQuantity(n)) == Sum(s.operations, FinalQuantity(n))
            && Sum(after.operations, FinalShare(n)) == Sum(s.operations, FinalShare(n))
  {
    hide Sum;
    var op := NewOperation(s, key, q, scenario);
    SumAppend(s.operations, op, FinalTotal());
    SumAppend(s.operations, op, FinalQuantity(n));
    SumAppend(s.operations, op, FinalShare(n));
  }

  lemma BeginKeeps(s: Sale, key: string, q: nat, scenario: Scenario)
    requires Inv(s) && q < |s.quotes| && SharesValid(s, s.quotes[q].shares)
    ensures Inv(Begin(s, key, q, scenario))
  {
    hide Sum;
    var after := Begin(s, key, q, scenario);
    BeginShaped(s, key, q, scenario);
    BeginSums(s, key, q, scenario, 0);
    forall i: nat ensures Sum(after.operations, FinalQuantity(i)) == Sum(s.operations, FinalQuantity(i)) {
      BeginSums(s, key, q, scenario, i);
    }
    forall p: nat ensures Sum(after.operations, FinalShare(p)) == Sum(s.operations, FinalShare(p)) {
      BeginSums(s, key, q, scenario, p);
    }
  }

  lemma QuoteTermsFit(s: Sale, quantities: seq<nat>, total: nat)
    requires ApplyQuote(s, quantities, total).Ok?
    ensures total > 0 && |quantities| == |s.sold| && Allocate(s.payments, UsedAll(s), 0, total).Ok?
    ensures var shares := Allocate(s.payments, UsedAll(s), 0, total).value;
            && TermsFit(s, quantities, total, shares)
            && ApplyQuote(s, quantities, total).value ==
               s.(quotes := s.quotes + [Quote(s.version, quantities, total, shares, false)])
  {
    hide Allocate, Used;
    AllocationExact(s.payments, UsedAll(s), 0, total);
  }

  lemma QuoteKeeps(s: Sale, quantities: seq<nat>, total: nat)
    requires Inv(s) && ApplyQuote(s, quantities, total).Ok?
    ensures Inv(ApplyQuote(s, quantities, total).value)
  {
    hide ApplyQuote, Allocate, Sum;
    QuoteTermsFit(s, quantities, total);
    var after := ApplyQuote(s, quantities, total).value;
    assert Shaped(after) by {
      forall k | 0 <= k < |after.operations| ensures OperationFits(after, after.operations[k]) {
        assert OperationFits(s, s.operations[k]);
      }
    }
  }

  lemma RememberKeeps(s: Sale, e: Event)
    requires Inv(s)
    ensures Inv(Remember(s, e))
  {
    var after := Remember(s, e);
    forall k | 0 <= k < |after.operations| ensures OperationFits(after, after.operations[k]) {
      assert OperationFits(s, s.operations[k]);
    }
  }

  lemma StepKeeps(s: Sale, a: Action)
    requires Inv(s)
    ensures Inv(Step(s, a))
  {
    hide Settle, TaskLegs, Sum;
    if Apply(s, a).Ok? {
      match a
      case CreateQuote(quantities, total) => QuoteKeeps(s, quantities, total);
      case Execute(key, q, scenario, _, _, env) =>
        if !KeyUsed(s, key) {
          BeginKeeps(s, key, q, scenario);
          var begun := Begin(s, key, q, scenario);
          SettleKeeps(begun, |s.operations|, begun.operations[|s.operations|].legs, env);
        }
      case Operate(task, o, _, env) =>
        assert OperationFits(s, s.operations[o]);
        if !(task == ConfirmCash && s.operations[o].status == Completed) {
          SettleKeeps(s, o, TaskLegs(s.operations[o], task, env.sandbox).value, env);
        }
      case RetryTax(o, _, _) =>
        assert OperationFits(s, s.operations[o]);
        ProgressKeeps(s, Step(s, a), o);
      case Deliver(e, signed, env) =>
        RememberKeeps(s, e);
        var o := e.operation;
        assert OperationFits(s, s.operations[o]);
        if Stored(s.events, e.id).None? && signed && e.sequence > s.operations[o].legs[e.leg].sequence {
          SettleKeeps(Remember(s, e), o, ReportLegs(s.operations[o].legs, e), env);
        }
    }
  }

  lemma {:induction false} RunKeeps(s: Sale, actions: seq<Action>)
    requires Inv(s)
    ensures Inv(Run(s, actions))
    decreases |actions|
  {
    if actions != [] {
      StepKeeps(s, actions[0]);
      RunKeeps(Step(s, actions[0]), actions[1..]);
    }
  }
}
