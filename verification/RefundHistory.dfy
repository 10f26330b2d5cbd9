/** What holds between the states of a run of the refund protocol, and of the payments it refunds. */
module RefundHistory {
  import opened Wrappers
  import opened Sums
  import opened RefundProtocol
  import opened RefundSafety

  // ----- The books -----

  /** After any run: no more is refunded than was sold, and the ledger says exactly what was refunded. */
  lemma BooksBalance(total: nat, sold: seq<nat>, payments: seq<Payment>, actions: seq<Action>)
    ensures var s := Run(FreshSale(total, sold, payments), actions);
            && s.refunded <= s.total
            && |s.returned| == |s.sold| && (forall i | 0 <= i < |s.sold| :: s.returned[i] <= s.sold[i])
            && Sum(s.ledger, AmountOf()) == s.refunded
            && s.refunded == Sum(s.operations, FinalTotal())
            && (forall o | 0 <= o < |s.operations| ::
                  EntriesOf(s.ledger, o) ==
                  if s.operations[o].finalized then Entries(o, s.operations[o].shares) else [])
            && (forall o | 0 <= o < |s.operations| :: ShareTotal(s.operations[o].shares) == s.operations[o].total)
  {
    FreshInv(total, sold, payments);
    RunKeeps(FreshSale(total, sold, payments), actions);
    var s := Run(FreshSale(total, sold, payments), actions);
    assert forall o | 0 <= o < |s.operations| :: OperationFits(s, s.operations[o]);
  }

  // ----- From each state to the later ones -----

  predicate OperationLater(a: Operation, b: Operation) {
    SameTerms(a, b) && (a.finalized ==> b.finalized)
  }

  /** Operation `o` is replaced by a later one; the books change only if it became finalized. */
  ghost predicate Moves(s: Sale, after: Sale, o: nat) {
    && o < |s.operations| && |after.operations| == |s.operations| && SameSale(s, after)
    && after.operations == s.operations[o := after.operations[o]]
    && OperationLater(s.operations[o], after.operations[o])
    && after.quotes == s.quotes
    && if after.operations[o].finalized && !s.operations[o].finalized then
      && after.version == s.version + 1 && AllSucceeded(after.operations[o].legs)
      && after.refunded == s.refunded + s.operations[o].total
      && after.ledger == s.ledger + Entries(o, s.operations[o].shares)
    else
      && after.version == s.version && after.status == s.status
      && after.refunded == s.refunded && after.returned == s.returned && after.ledger == s.ledger
  }

  lemma SettleMoves(s: Sale, o: nat, legs: seq<Leg>, env: Environment)
    requires Inv(s) && o < |s.operations| && |legs| == |s.operations[o].shares|
    requires Settle(s, o, legs, env).Ok?
    ensures Moves(s, Settle(s, o, legs, env).value, o)
  {
    if AllSucceeded(legs) && !s.operations[o].finalized { FinalizeLedger(s, o, legs, env); }
  }

  lemma OperationsFit(s: Sale, o: nat)
    requires Inv(s) && o < |s.operations|
    ensures OperationFits(s, s.operations[o])
  {
  }

  /** All that an action can do. */
  datatype Effect =
    Nothing | Quoted(quote: Quote) | Began(key: string, q: nat, scenario: Scenario) | Moved(operation: nat)

  ghost predicate Begins(s: Sale, after: Sale, key: string, q: nat, scenario: Scenario) {
    && q < |s.quotes| && SharesValid(s, s.quotes[q].shares)
    && !KeyUsed(s, key) && !s.quotes[q].consumed && s.quotes[q].orderVersion == s.version
    && Moves(Begin(s, key, q, scenario), after, |s.operations|)
  }

  ghost predicate HasEffect(s: Sale, after: Sale, effect: Effect) {
    match effect
    case Nothing => after == s.(events := after.events)
    case Quoted(quote) => after == s.(quotes := s.quotes + [quote])
    case Began(key, q, scenario) => Begins(s, after, key, q, scenario)
    case Moved(o) => Moves(s, after, o)
  }

  /** A delivery whose report reaches a leg of operation `o`. */
  predicate Lands(s: Sale, a: Action, o: nat) {
    && a.Deliver? && a.event.operation == o && o < |s.operations| && a.event.leg < |s.operations[o].legs|
    && Reportable(a.event) && Stored(s.events, a.event.id).None?
    && a.signed && a.event.sequence > s.operations[o].legs[a.event.leg].sequence
  }

  lemma ExecuteEffect(s: Sale, a: Action) returns (effect: Effect)
    requires Inv(s) && a.Execute? && Apply(s, a).Ok?
    ensures HasEffect(s, Apply(s, a).value, effect) && !effect.Quoted?
  {
    hide Settle, Sum, Inv;
    effect := Nothing;
    if !KeyUsed(s, a.key) {
      BeginKeeps(s, a.key, a.quote, a.scenario);
      var begun := Begin(s, a.key, a.quote, a.scenario);
      OperationsFit(begun, |s.operations|);
      SettleMoves(begun, |s.operations|, begun.operations[|s.operations|].legs, a.env);
      effect := Began(a.key, a.quote, a.scenario);
    }
  }

  lemma OperateEffect(s: Sale, a: Action) returns (effect: Effect)
    requires Inv(s) && a.Operate? && Apply(s, a).Ok?
    ensures HasEffect(s, Apply(s, a).value, effect) && !effect.Quoted?
  {
    hide Settle, Sum, TaskLegs, Inv;
    effect := Nothing;
    OperationsFit(s, a.operation);
    if !(a.task == ConfirmCash && s.operations[a.operation].status == Completed) {
      SettleMoves(s, a.operation, TaskLegs(s.operations[a.operation], a.task, a.env.sandbox).value, a.env);
      effect := Moved(a.operation);
    }
  }

  lemma DeliverEffect(s: Sale, a: Action) returns (effect: Effect)
    requires Inv(s) && a.Deliver? && Apply(s, a).Ok?
    ensures HasEffect(s, Apply(s, a).value, effect) && !effect.Quoted?
  {
    hide Settle, Sum, Inv;
    effect := Nothing;
    var e, o := a.event, a.event.operation;
    OperationsFit(s, o);
    if Lands(s, a, o) {
      RememberKeeps(s, e);
      SettleMoves(Remember(s, e), o, ReportLegs(s.operations[o].legs, e), a.env);
      effect := Moved(o);
    }
  }

  /** An action does nothing, appends a quote, begins an operation, or moves one on. */
  lemma StepEffect(s: Sale, a: Action) returns (effect: Effect)
    requires Inv(s)
    ensures HasEffect(s, Step(s, a), effect)
    ensures effect.Quoted? ==>
              && a.CreateQuote? && a.total > 0
              && var allocation := Allocate(s.payments, UsedAll(s), 0, a.total);
              allocation.Ok? && effect.quote == Quote(s.version, a.quantities, a.total, allocation.value, false)
  {
    hide Inv, ApplyExecute, ApplyTask, ApplyDeliver, Begins;
    effect := Nothing;
    if Apply(s, a).Ok? {
      match a
      case CreateQuote(quantities, total) =>
        effect := Quoted(Quote(s.version, quantities, total, Allocate(s.payments, UsedAll(s), 0, total).value, false));
      case Execute(_, _, _, _, _, _) => effect := ExecuteEffect(s, a);
      case Operate(_, _, _, _) => effect := OperateEffect(s, a);
      case RetryTax(o, _, _) => effect := Moved(o);
      case Deliver(_, _, _) => effect := DeliverEffect(s, a);
    }
  }

  /** What a later state keeps of an earlier one. */
  ghost predicate Later(s: Sale, after: Sale) {
    && SameSale(s, after)
    && s.ledger <= after.ledger && s.refunded <= after.refunded
    && |s.operations| <= |after.operations|
    && forall o | 0 <= o < |s.operations| :: OperationLater(s.operations[o], after.operations[o])
  }

  lemma StepLater(s: Sale, a: Action)
    requires Inv(s)
    ensures Later(s, Step(s, a))
  {
    hide Step, Sum, Inv;
    var effect := StepEffect(s, a);
    if effect.Began? {
      var begun := Begin(s, effect.key, effect.q, effect.scenario);
      assert forall o | 0 <= o < |s.operations| :: begun.operations[o] == s.operations[o];
    }
  }

  lemma LaterLater(s: Sale, t: Sale, u: Sale)
    requires Later(s, t) && Later(t, u)
    ensures Later(s, u)
  {
  }

  /** Refunds are final: entries, terms and finalization of an operation survive everything that follows. */
  lemma {:induction false} RunLater(s: Sale, actions: seq<Action>)
    requires Inv(s)
    ensures Later(s, Run(s, actions))
    decreases |actions|
  {
    if actions != [] {
      hide Step, Inv, Later;
      var next := Step(s, actions[0]);
      StepKeeps(s, actions[0]);
      StepLater(s, actions[0]);
      RunLater(next, actions[1..]);
      LaterLater(s, next, Run(next, actions[1..]));
    }
  }

  /** Money leaves the books in one way only: an operation becomes finalized, with all its legs succeeded. */
  lemma PostingNeedsSuccess(s: Sale, a: Action) returns (o: nat)
    requires Inv(s) && Step(s, a).ledger != s.ledger
    ensures var after := Step(s, a);
            && o < |after.operations| && after.operations[o].finalized && AllSucceeded(after.operations[o].legs)
            && (o < |s.operations| ==> !s.operations[o].finalized)
            && after.ledger == s.ledger + Entries(o, after.operations[o].shares)
  {
    hide Step;
    var effect := StepEffect(s, a);
    o := if effect.Moved? then effect.operation else |s.operations|;
  }

  // ----- Operations that were complete -----

  predicate Settled(op: Operation) {
    op.status in {TaxPending, Completed}
  }

  /** Settling with all legs succeeded keeps a settled operation settled, and touches no other one. */
  lemma SettleAndSettled(s: Sale, o: nat, legs: seq<Leg>, env: Environment, k: nat)
    requires o < |s.operations| && k < |s.operations| && s.operations[k].finalized && Settle(s, o, legs, env).Ok?
    ensures var after := Settle(s, o, legs, env).value;
            && k < |after.operations| && after.operations[k].finalized
            && (Settled(after.operations[k]) <==>
                Settled(s.operations[k]) && (k == o ==> AllSucceeded(legs) || legs == []))
  {
    if legs != [] && !AllSucceeded(legs) {
      hide DeriveStatus;
      DerivedNotSettled(s.operations[o].status, legs);
    }
  }

  lemma FinalizedSettles(s: Sale, o: nat, legs: seq<Leg>, env: Environment)
    requires o < |s.operations| && s.operations[o].finalized
    ensures Settle(s, o, legs, env).Ok?
  {
  }

  lemma TasksKeepSuccess(op: Operation, task: Task, sandbox: bool)
    requires AllSucceeded(op.legs) && TaskLegs(op, task, sandbox).Ok?
    ensures AllSucceeded(TaskLegs(op, task, sandbox).value)
  {
  }

  /** A settled operation ceases to be settled exactly when a later webhook reports other than success. */
  lemma SettledUntilContradicted(s: Sale, a: Action, o: nat)
    requires Inv(s) && o < |s.operations| && Settled(s.operations[o])
    ensures o < |Step(s, a).operations|
    ensures !Settled(Step(s, a).operations[o]) <==> Lands(s, a, o) && a.event.report != Succeeded
  {
    hide Settle, TaskLegs, Inv;
    var op := s.operations[o];
    OperationsFit(s, o);
    if Lands(s, a, o) {
      FinalizedSettles(Remember(s, a.event), o, ReportLegs(op.legs, a.event), a.env);
    }
    if Apply(s, a).Ok? {
      match a
      case CreateQuote(_, _) =>
      case Execute(key, q, scenario, _, _, env) =>
        if !KeyUsed(s, key) {
          var begun := Begin(s, key, q, scenario);
          SettleAndSettled(begun, |s.operations|, begun.operations[|s.operations|].legs, env, o);
        }
      case Operate(task, k, _, env) =>
        if !(task == ConfirmCash && s.operations[k].status == Completed) {
          SettleAndSettled(s, k, TaskLegs(s.operations[k], task, env.sandbox).value, env, o);
          if k == o { TasksKeepSuccess(op, task, env.sandbox); }
        }
      case RetryTax(_, _, _) =>
      case Deliver(e, signed, env) =>
        var k := e.operation;
        if Lands(s, a, k) {
          var legs := ReportLegs(s.operations[k].legs, e);
          assert legs[e.leg].status == e.report;
          SettleAndSettled(Remember(s, e), k, legs, env, o);
        }
    }
  }

  lemma UnsettledStep(s: Sale, a: Action, o: nat)
    requires o < |s.operations| && s.operations[o].finalized && !Settled(s.operations[o])
    ensures var after := Step(s, a);
            o < |after.operations| && after.operations[o].finalized && !Settled(after.operations[o])
  {
    hide Settle, TaskLegs;
    if Apply(s, a).Ok? {
      match a
      case CreateQuote(_, _) =>
      case Execute(key, q, scenario, _, _, env) =>
        if !KeyUsed(s, key) {
          var begun := Begin(s, key, q, scenario);
          SettleAndSettled(begun, |s.operations|, begun.operations[|s.operations|].legs, env, o);
        }
      case Operate(task, k, _, env) =>
        if !(task == ConfirmCash && s.operations[k].status == Completed) {
          SettleAndSettled(s, k, TaskLegs(s.operations[k], task, env.sandbox).value, env, o);
        }
      case RetryTax(_, _, _) =>
      case Deliver(e, signed, env) =>
        var k := e.operation;
        if Lands(s, a, k) {
          SettleAndSettled(Remember(s, e), k, ReportLegs(s.operations[k].legs, e), env, o);
        }
    }
  }

  /** And then never again: no later action makes a contradicted operation complete. */
  lemma {:induction false} ContradictedForever(s: Sale, actions: seq<Action>, o: nat)
    requires o < |s.operations| && s.operations[o].finalized && !Settled(s.operations[o])
    ensures var after := Run(s, actions);
            o < |after.operations| && after.operations[o].finalized && !Settled(after.operations[o])
    decreases |actions|
  {
    if actions != [] {
      UnsettledStep(s, actions[0], o);
      ContradictedForever(Step(s, actions[0]), actions[1..], o);
    }
  }
}
