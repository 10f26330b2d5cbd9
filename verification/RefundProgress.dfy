/** What the status of a refund operation says about its legs, and that a quote is executed once. */
module RefundProgress {
  import opened Wrappers
  import opened RefundProtocol
  import opened RefundSafety
  import opened RefundHistory

  // ----- The legs and the status of an operation -----

  /** Provider legs have been called; cash legs wait for the operator or for what a webhook reported. */
  predicate LegFits(leg: Leg) {
    leg.status != Requested && (!leg.cash ==> leg.status != CashDue && leg.attempts >= 1)
  }

  predicate LegsFit(legs: seq<Leg>) {
    legs != [] && forall i | 0 <= i < |legs| :: LegFits(legs[i])
  }

  /** Until all legs have succeeded the status is derived from them; then the operation is finalized. */
  predicate Tracks(op: Operation) {
    && LegsFit(op.legs)
    && if AllSucceeded(op.legs) then op.finalized else exists before :: op.status == DeriveStatus(before, op.legs)
  }

  lemma SettleTracks(s: Sale, o: nat, legs: seq<Leg>, env: Environment, k: nat)
    requires o < |s.operations| && k < |s.operations| && Settle(s, o, legs, env).Ok? && LegsFit(legs)
    requires k != o ==> Tracks(s.operations[k])
    ensures var after := Settle(s, o, legs, env).value;
            |after.operations| == |s.operations| && Tracks(after.operations[k])
  {
    hide DeriveStatus, LegsFit;
  }

  lemma StartLegsFit(payments: seq<Payment>, shares: seq<Share>, scenario: Scenario)
    requires shares != [] && forall i | 0 <= i < |shares| :: shares[i].payment < |payments|
    ensures LegsFit(StartLegs(payments, shares, scenario))
  {
  }

  lemma TaskLegsFit(op: Operation, task: Task, sandbox: bool)
    requires LegsFit(op.legs) && TaskLegs(op, task, sandbox).Ok?
    ensures LegsFit(TaskLegs(op, task, sandbox).value)
  {
  }

  lemma ReportLegsFit(legs: seq<Leg>, e: Event)
    requires LegsFit(legs) && e.leg < |legs| && Reportable(e)
    ensures LegsFit(ReportLegs(legs, e))
  {
  }

  lemma QuoteSharesSome(s: Sale, q: nat)
    requires Inv(s) && q < |s.quotes|
    ensures s.quotes[q].shares != []
  {
    SharesNotEmpty(s, s.quotes[q].quantities, s.quotes[q].total, s.quotes[q].shares);
  }

  predicate AllTrack(s: Sale) {
    forall o | 0 <= o < |s.operations| :: Tracks(s.operations[o])
  }

  lemma TracksStep(s: Sale, a: Action, k: nat)
    requires Inv(s) && AllTrack(s) && k < |Step(s, a).operations|
    ensures Tracks(Step(s, a).operations[k])
  {
    hide Settle, TaskLegs, Inv, LegsFit;
    if Apply(s, a).Ok? {
      match a
      case CreateQuote(_, _) =>
      case Execute(key, q, scenario, _, _, env) =>
        if !KeyUsed(s, key) {
          QuoteSharesSome(s, q);
          StartLegsFit(s.payments, s.quotes[q].shares, scenario);
          var begun := Begin(s, key, q, scenario);
          SettleTracks(begun, |s.operations|, begun.operations[|s.operations|].legs, env, |s.operations|);
          SettleTracks(begun, |s.operations|, begun.operations[|s.operations|].legs, env, k);
        }
      case Operate(task, o, _, env) =>
        if !(task == ConfirmCash && s.operations[o].status == Completed) {
          TaskLegsFit(s.operations[o], task, env.sandbox);
          SettleTracks(s, o, TaskLegs(s.operations[o], task, env.sandbox).value, env, o);
          SettleTracks(s, o, TaskLegs(s.operations[o], task, env.sandbox).value, env, k);
        }
      case RetryTax(o, _, _) =>
        OperationsFit(s, o);
      case Deliver(e, signed, env) =>
        var o := e.operation;
        if Lands(s, a, o) {
          ReportLegsFit(s.operations[o].legs, e);
          SettleTracks(Remember(s, e), o, ReportLegs(s.operations[o].legs, e), env, o);
          SettleTracks(Remember(s, e), o, ReportLegs(s.operations[o].legs, e), env, k);
        }
    }
  }

  lemma {:induction false} TracksRun(s: Sale, actions: seq<Action>)
    requires Inv(s) && AllTrack(s)
    ensures AllTrack(Run(s, actions))
    decreases |actions|
  {
    hide Step, Inv, Tracks;
    if actions != [] {
      StepKeeps(s, actions[0]);
      forall o | 0 <= o < |Step(s, actions[0]).operations| ensures Tracks(Step(s, actions[0]).operations[o]) {
        TracksStep(s, actions[0], o);
      }
      TracksRun(Step(s, actions[0]), actions[1..]);
    }
  }

  predicate Every(legs: seq<Leg>, statuses: set<LegStatus>) {
    forall i | 0 <= i < |legs| :: legs[i].status in statuses
  }

  /** What the status tells about the legs of an operation that is not finalized. */
  predicate SaysItsLegs(op: Operation) {
    var legs := op.legs;
    var doubt := Has(legs, Unknown) || Has(legs, Failed);
    && (op.status == NeedsReconciliation <==> doubt && Has(legs, Succeeded))
    && (op.status == OpUnknown <==> Has(legs, Unknown) && !Has(legs, Succeeded))
    && (op.status == OpFailed <==> Has(legs, Failed) && !Has(legs, Unknown) && !Has(legs, Succeeded))
    && (op.status == OpCashDue <==> Every(legs, {CashDue, Succeeded}))
    && (op.status == OpProcessing <==> !doubt && Has(legs, Processing))
  }

  lemma DerivedSays(op: Operation)
    requires Tracks(op) && !AllSucceeded(op.legs)
    ensures SaysItsLegs(op)
  {
    var legs := op.legs;
    assert !Has(legs, Requested);
    var k :| 0 <= k < |legs| && legs[k].status != Succeeded;
    assert Has(legs, legs[k].status);
    if Every(legs, {CashDue, Succeeded}) {
      assert forall status | status in {Unknown, Failed, Processing} :: !Has(legs, status);
    } else {
      var i :| 0 <= i < |legs| && legs[i].status !in {CashDue, Succeeded};
      assert Has(legs, legs[i].status);
    }
  }

  /** In every reachable state: the status of an operation still under way says exactly how its legs stand. */
  lemma StatusSaysLegs(total: nat, sold: seq<nat>, payments: seq<Payment>, actions: seq<Action>, o: nat)
    requires o < |Run(FreshSale(total, sold, payments), actions).operations|
    ensures var op := Run(FreshSale(total, sold, payments), actions).operations[o];
            && (!op.finalized ==> SaysItsLegs(op) && !AllSucceeded(op.legs))
            && (op.status in {TaxPending, Completed} ==> op.finalized && AllSucceeded(op.legs))
  {
    hide SaysItsLegs;
    var s := FreshSale(total, sold, payments);
    FreshInv(total, sold, payments);
    RunKeeps(s, actions);
    TracksRun(s, actions);
    OperationsFit(Run(s, actions), o);
    var op := Run(s, actions).operations[o];
    assert Tracks(op);
    if !op.finalized { DerivedSays(op); }
  }

  // ----- A quote is executed once -----

  predicate Consumed(s: Sale, q: nat) {
    q < |s.quotes| && s.quotes[q].consumed
  }

  lemma SettleQuotes(s: Sale, o: nat, legs: seq<Leg>, env: Environment)
    requires o < |s.operations| && Settle(s, o, legs, env).Ok?
    ensures Settle(s, o, legs, env).value.quotes == s.quotes
  {
  }

  lemma ConsumedStep(s: Sale, a: Action, q: nat)
    requires Consumed(s, q)
    ensures Consumed(Step(s, a), q)
  {
    hide Settle, TaskLegs;
    if Apply(s, a).Ok? {
      match a
      case CreateQuote(_, _) =>
      case Execute(key, k, scenario, _, _, env) =>
        if !KeyUsed(s, key) {
          var begun := Begin(s, key, k, scenario);
          SettleQuotes(begun, |s.operations|, begun.operations[|s.operations|].legs, env);
        }
      case Operate(task, o, _, env) =>
        if !(task == ConfirmCash && s.operations[o].status == Completed) {
          SettleQuotes(s, o, TaskLegs(s.operations[o], task, env.sandbox).value, env);
        }
      case RetryTax(_, _, _) =>
      case Deliver(e, signed, env) =>
        var o := e.operation;
        if Lands(s, a, o) {
          SettleQuotes(Remember(s, e), o, ReportLegs(s.operations[o].legs, e), env);
        }
    }
  }

  lemma {:induction false} ConsumedRun(s: Sale, actions: seq<Action>, q: nat)
    requires Consumed(s, q)
    ensures Consumed(Run(s, actions), q)
    decreases |actions|
  {
    hide Step;
    if actions != [] {
      ConsumedStep(s, actions[0], q);
      ConsumedRun(Step(s, actions[0]), actions[1..], q);
      assert Run(s, actions) == Run(Step(s, actions[0]), actions[1..]);
    }
  }

  lemma ExecuteConsumes(s: Sale, a: Action)
    requires a.Execute? && !KeyUsed(s, a.key) && Apply(s, a).Ok?
    ensures Consumed(Apply(s, a).value, a.quote)
  {
    hide Settle;
    var begun := Begin(s, a.key, a.quote, a.scenario);
    SettleQuotes(begun, |s.operations|, begun.operations[|s.operations|].legs, a.env);
  }

  lemma StepOk(s: Sale, a: Action)
    requires Apply(s, a).Ok?
    ensures Step(s, a) == Apply(s, a).value
  {
    hide Apply;
  }

  /**
   Once a quote has been executed, executing it again has no further effect in any later state: it is
   refused, or answered with the operation that the same request began.
   */
  lemma QuoteExecutesOnce(s: Sale, first: Action, actions: seq<Action>, again: Action)
    requires first.Execute? && again.Execute? && again.quote == first.quote
    requires !KeyUsed(s, first.key) && Apply(s, first).Ok?
    ensures Step(Run(Step(s, first), actions), again) == Run(Step(s, first), actions)
  {
    hide Settle, Begin;
    assert Consumed(Step(s, first), first.quote) by {
      ExecuteConsumes(s, first);
      StepOk(s, first);
    }
    ConsumedRun(Step(s, first), actions, first.quote);
  }
}
