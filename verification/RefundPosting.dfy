/**
 What each action posts, told from the state before it, and exactly when a payment is paid back beyond
 its amount: the protocol guards the totals of the sale when it posts, but not the single payments.
 */
module RefundPosting {
  import opened Wrappers
  import opened Sums
  import opened RefundProtocol
  import opened RefundSafety
  import opened RefundHistory

  // ----- What an action settles -----

  /** An operation with the legs an action gives it; `finalized` and `status` are from before. */
  datatype Attempt = Attempt(
    operation: nat, shares: seq<Share>, quantities: seq<nat>, total: nat,
    legs: seq<Leg>, finalized: bool, status: OperationStatus, shiftOpen: bool)

  function AttemptOn(s: Sale, o: nat, legs: seq<Leg>, env: Environment): Attempt
    requires o < |s.operations|
  {
    var op := s.operations[o];
    Attempt(o, op.shares, op.quantities, op.total, legs, op.finalized, op.status, env.shiftOpen)
  }

  /** The guards of `execute` before it begins an operation. */
  predicate Executable(s: Sale, a: Action)
    requires a.Execute?
  {
    && !KeyUsed(s, a.key) && a.approved
    && a.quote < |s.quotes| && SharesValid(s, s.quotes[a.quote].shares)
    && !s.quotes[a.quote].consumed && a.unexpired && s.quotes[a.quote].orderVersion == s.version
    && (a.env.sandbox || !NeedsProvider(s, s.quotes[a.quote].shares))
  }

  /** What the action settles, if its own guards let it come that far. */
  function Attempted(s: Sale, a: Action): Option<Attempt> {
    match a
    case CreateQuote(_, _) => None
    case Execute(_, q, scenario, _, _, env) =>
      if Executable(s, a) then
        var quote := s.quotes[q];
        Some(Attempt(|s.operations|, quote.shares, quote.quantities, quote.total,
                     StartLegs(s.payments, quote.shares, scenario), false, OpProcessing, env.shiftOpen))
      else None
    case Operate(task, o, expected, env) =>
      if o < |s.operations| && s.operations[o].version == expected
         && !(task == ConfirmCash && s.operations[o].status == Completed)
         && TaskLegs(s.operations[o], task, env.sandbox).Ok?
      then Some(AttemptOn(s, o, TaskLegs(s.operations[o], task, env.sandbox).value, env)) else None
    case RetryTax(_, _, _) => None
    case Deliver(e, _, env) =>
      if Lands(s, a, e.operation)
      then Some(AttemptOn(s, e.operation, ReportLegs(s.operations[e.operation].legs, e), env)) else None
  }

  /** All legs have succeeded for the first time: money is about to be posted. */
  predicate Due(t: Attempt) {
    AllSucceeded(t.legs) && !t.finalized
  }

  /** The guards of `_finalize`. */
  predicate Finalizable(s: Sale, quantities: seq<nat>, total: nat) {
    && s.status != Refunded && s.refunded + total <= s.total
    && |s.returned| == |quantities| == |s.sold|
    && forall i | 0 <= i < |s.sold| :: s.returned[i] + quantities[i] <= s.sold[i]
  }

  predicate Posts(s: Sale, t: Attempt) {
    Due(t) && Finalizable(s, t.quantities, t.total) && t.shiftOpen
  }

  /** The shares the action posts. */
  function PostedShares(s: Sale, a: Action): seq<Share> {
    match Attempted(s, a)
    case Some(t) => if Posts(s, t) then t.shares else []
    case None => []
  }

  // ----- What becomes of it -----

  /** What settling makes of the operation and of the ledger, or that it leaves everything alone. */
  ghost predicate Outcome(s: Sale, after: Sale, t: Attempt) {
    if Due(t) && !Posts(s, t) then after == s
    else
      && t.operation < |after.operations| && |s.operations| <= |after.operations|
      && (forall k | 0 <= k < |s.operations| && k != t.operation :: after.operations[k] == s.operations[k])
      && var op := after.operations[t.operation];
      && op.legs == t.legs && op.shares == t.shares
      && op.finalized == (t.finalized || Posts(s, t))
      && (if Posts(s, t) then op.status in {Completed, TaxPending}
          else op.status == if AllSucceeded(t.legs) then t.status else DeriveStatus(t.status, t.legs))
      && after.ledger == s.ledger + if Posts(s, t) then Entries(t.operation, t.shares) else []
  }

  lemma SettleOutcome(s: Sale, o: nat, legs: seq<Leg>, env: Environment)
    requires Inv(s) && o < |s.operations|
    ensures var t, r := AttemptOn(s, o, legs, env), Settle(s, o, legs, env);
            && (r.Err? <==> Due(t) && !Posts(s, t))
            && (r.Ok? ==> Outcome(s, r.value, t))
  {
    hide Inv, DeriveStatus;
    if Due(AttemptOn(s, o, legs, env)) && Settle(s, o, legs, env).Ok? { FinalizeLedger(s, o, legs, env); }
  }

  /** The action does what its attempt says. */
  lemma AttemptOutcome(s: Sale, a: Action)
    requires Inv(s) && Attempted(s, a).Some?
    ensures Outcome(s, Step(s, a), Attempted(s, a).value)
  {
    hide Settle, Inv, TaskLegs;
    match a
    case Execute(key, q, scenario, _, _, env) =>
      BeginKeeps(s, key, q, scenario);
      var begun := Begin(s, key, q, scenario);
      SettleOutcome(begun, |s.operations|, begun.operations[|s.operations|].legs, env);
    case Operate(task, o, _, env) =>
      SettleOutcome(s, o, TaskLegs(s.operations[o], task, env.sandbox).value, env);
    case Deliver(e, _, env) =>
      RememberKeeps(s, e);
      SettleOutcome(Remember(s, e), e.operation, ReportLegs(s.operations[e.operation].legs, e), env);
  }

  /** Without an attempt nothing is posted, and no operation changes but for its tax state. */
  lemma NoAttempt(s: Sale, a: Action, o: nat)
    requires Attempted(s, a).None? && o < |s.operations|
    ensures var after := Step(s, a);
            && after.ledger == s.ledger && |after.operations| == |s.operations|
            && after.operations[o].legs == s.operations[o].legs
            && after.operations[o].finalized == s.operations[o].finalized
            && (!s.operations[o].finalized ==> after.operations[o] == s.operations[o])
  {
    hide Settle, TaskLegs;
  }

  lemma StepPosts(s: Sale, a: Action, p: nat)
    requires Inv(s)
    ensures LedgerOf(Step(s, a).ledger, p) == LedgerOf(s.ledger, p) + ShareOf(PostedShares(s, a), p)
  {
    hide Step, Inv, Attempted;
    ZeroSum([], PaidTo(p));
    if Attempted(s, a).Some? {
      AttemptOutcome(s, a);
      var t := Attempted(s, a).value;
      var entries := Entries(t.operation, t.shares);
      SumConcat(s.ledger, entries, PostedOf(p));
      EntriesAmounts(t.operation, t.shares, p);
      assert s.ledger + [] == s.ledger;
    } else {
      NoAttemptLedger(s, a);
    }
  }

  lemma NoAttemptLedger(s: Sale, a: Action)
    requires Attempted(s, a).None?
    ensures Step(s, a).ledger == s.ledger
  {
    hide Settle, TaskLegs;
  }

  // ----- Payments and their amounts -----

  /** No payment has been paid back beyond its amount. */
  ghost predicate Within(s: Sale) {
    forall p | 0 <= p < |s.payments| :: LedgerOf(s.ledger, p) <= s.payments[p].amount
  }

  /** Each payment still has what the action is about to post to it. */
  ghost predicate Affordable(s: Sale, a: Action) {
    forall p | 0 <= p < |s.payments| :: LedgerOf(s.ledger, p) + ShareOf(PostedShares(s, a), p) <= s.payments[p].amount
  }

  /** One action: payments are within their amounts afterwards exactly when what it posts was affordable. */
  lemma StepStaysWithin(s: Sale, a: Action)
    requires Inv(s)
    ensures Within(Step(s, a)) <==> Affordable(s, a)
  {
    hide Step, Inv, PostedShares;
    StepLater(s, a);
    forall p: nat ensures LedgerOf(Step(s, a).ledger, p) == LedgerOf(s.ledger, p) + ShareOf(PostedShares(s, a), p) {
      StepPosts(s, a, p);
    }
  }

  /** Each action is affordable in the state it finds. */
  ghost predicate EachAffordable(s: Sale, actions: seq<Action>)
    decreases |actions|
  {
    actions != [] ==> Affordable(s, actions[0]) && EachAffordable(Step(s, actions[0]), actions[1..])
  }

  lemma BeyondForGood(s: Sale, actions: seq<Action>)
    requires Inv(s) && Within(Run(s, actions))
    ensures Within(s)
  {
    hide Run, Inv;
    RunLater(s, actions);
    var after := Run(s, actions);
    forall p | 0 <= p < |s.payments| ensures LedgerOf(s.ledger, p) <= s.payments[p].amount {
      assert after.ledger == s.ledger + after.ledger[|s.ledger|..];
      SumConcat(s.ledger, after.ledger[|s.ledger|..], PostedOf(p));
    }
  }

  lemma {:induction false} RunStaysWithin(s: Sale, actions: seq<Action>)
    requires Inv(s) && Within(s)
    ensures Within(Run(s, actions)) <==> EachAffordable(s, actions)
    decreases |actions|
  {
    hide Step, Inv, Within, Affordable;
    if actions != [] {
      var next := Step(s, actions[0]);
      StepKeeps(s, actions[0]);
      StepStaysWithin(s, actions[0]);
      if Within(next) {
        RunStaysWithin(next, actions[1..]);
      } else if Within(Run(next, actions[1..])) {
        BeyondForGood(next, actions[1..]);
      }
    }
  }

  /** A whole run pays no payment back beyond its amount exactly when each action posts what is affordable then. */
  lemma PaymentsStayWithin(total: nat, sold: seq<nat>, payments: seq<Payment>, actions: seq<Action>)
    ensures Within(Run(FreshSale(total, sold, payments), actions)) <==>
            EachAffordable(FreshSale(total, sold, payments), actions)
  {
    FreshInv(total, sold, payments);
    RunStaysWithin(FreshSale(total, sold, payments), actions);
  }
}
