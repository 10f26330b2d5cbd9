/** Exactly when an operator can bring a refund to its end, and that every fresh one can be. */
module RefundFinish {
  import opened Wrappers
  import opened RefundProtocol
  import opened RefundSafety
  import opened RefundHistory
  import opened RefundPosting
  import opened RefundProgress

  // ----- The legs -----

  predicate CashReady(legs: seq<Leg>) {
    forall i | 0 <= i < |legs| && legs[i].cash :: legs[i].status in {CashDue, Succeeded}
  }

  predicate ProviderPaid(legs: seq<Leg>) {
    forall i | 0 <= i < |legs| && !legs[i].cash :: legs[i].status == Succeeded
  }

  /**
   An operator can bring the legs to success: cash is only waiting, and the provider has paid or will
   answer. A declined leg can still be retried as long as no leg has succeeded and none is unknown.
   */
  predicate Finishable(op: Operation) {
    && CashReady(op.legs)
    && (ProviderPaid(op.legs) ||
        (op.scenario != UnknownForever &&
         (Has(op.legs, Failed) ==> !Has(op.legs, Succeeded) && !Has(op.legs, Unknown))))
  }

  /** What an operator does next: retry first, because an answer to an inquiry rules it out. */
  function NextTask(legs: seq<Leg>): Task {
    if Has(legs, Failed) then Retry
    else if exists i | 0 <= i < |legs| :: Queryable(legs[i]) then Inquire
    else ConfirmCash
  }

  /** How many tasks are left at most. */
  function TasksLeft(op: Operation): nat {
    var queryable := exists i | 0 <= i < |op.legs| :: Queryable(op.legs[i]);
    if Has(op.legs, Failed) then if op.scenario in {Succeeds, FailsOnce} && !queryable then 2 else 3
    else if queryable then 2
    else 1
  }

  lemma RetryAdvances(op: Operation)
    requires LegsFit(op.legs) && Finishable(op) && Has(op.legs, Failed)
    ensures var r := TaskLegs(op, Retry, true);
            && r.Ok? && Finishable(op.(legs := r.value)) && !Has(r.value, Failed)
            && TasksLeft(op.(legs := r.value)) < TasksLeft(op)
  {
    var legs := op.legs;
    var i :| 0 <= i < |legs| && legs[i].status == Failed;
    assert Retryable(legs[i]);
    var after := TaskLegs(op, Retry, true).value;
    assert forall k | 0 <= k < |legs| ::
      after[k] == if Retryable(legs[k]) then CallProvider(legs[k], op.scenario, false) else legs[k];
    assert forall k | 0 <= k < |legs| :: after[k].status != Failed && after[k].cash == legs[k].cash;
  }

  lemma InquiryAdvances(op: Operation)
    requires LegsFit(op.legs) && Finishable(op) && !Has(op.legs, Failed)
    requires exists i | 0 <= i < |op.legs| :: Queryable(op.legs[i])
    ensures var r := TaskLegs(op, Inquire, true);
            && r.Ok? && Finishable(op.(legs := r.value)) && !Has(r.value, Failed)
            && TasksLeft(op.(legs := r.value)) < TasksLeft(op)
  {
    var legs := op.legs;
    var after := TaskLegs(op, Inquire, true).value;
    assert forall k | 0 <= k < |legs| ::
      after[k] == if Queryable(legs[k]) then CallProvider(legs[k], op.scenario, true) else legs[k];
    forall k | 0 <= k < |legs| && !legs[k].cash ensures after[k].status == Succeeded && !after[k].cash {
      assert Has(legs, legs[k].status);
    }
    assert forall k | 0 <= k < |legs| && legs[k].cash :: after[k] == legs[k];
  }

  lemma ConfirmationFinishes(op: Operation)
    requires LegsFit(op.legs) && Finishable(op) && !AllSucceeded(op.legs) && !Has(op.legs, Failed)
    requires !(exists i | 0 <= i < |op.legs| :: Queryable(op.legs[i]))
    ensures TaskLegs(op, ConfirmCash, true).Ok? && AllSucceeded(TaskLegs(op, ConfirmCash, true).value)
  {
    var legs := op.legs;
    forall k | 0 <= k < |legs| && !legs[k].cash ensures legs[k].status == Succeeded {
      assert Has(legs, legs[k].status) && !Queryable(legs[k]);
    }
    var i :| 0 <= i < |legs| && legs[i].status != Succeeded;
    assert legs[i].cash;
  }

  /** The next task is accepted and leaves less to do. */
  lemma NextTaskAdvances(op: Operation)
    requires LegsFit(op.legs) && Finishable(op) && !AllSucceeded(op.legs)
    ensures var r := TaskLegs(op, NextTask(op.legs), true);
            && r.Ok? && LegsFit(r.value)
            && (AllSucceeded(r.value) ||
                (Finishable(op.(legs := r.value)) && TasksLeft(op.(legs := r.value)) < TasksLeft(op)))
  {
    hide Finishable, TasksLeft, TaskLegs;
    if Has(op.legs, Failed) {
      RetryAdvances(op);
    } else if exists i | 0 <= i < |op.legs| :: Queryable(op.legs[i]) {
      InquiryAdvances(op);
    } else {
      ConfirmationFinishes(op);
    }
    TaskLegsFit(op, NextTask(op.legs), true);
  }

  lemma AllSucceededIsFinishable(op: Operation)
    requires AllSucceeded(op.legs)
    ensures Finishable(op)
  {
  }

  /** Where that is not so, no task helps. */
  lemma NoTaskHelps(op: Operation, task: Task, sandbox: bool)
    requires LegsFit(op.legs) && !Finishable(op) && TaskLegs(op, task, sandbox).Ok?
    ensures !Finishable(op.(legs := TaskLegs(op, task, sandbox).value))
  {
    var legs := op.legs;
    var after := TaskLegs(op, task, sandbox).value;
    if !CashReady(legs) {
      var i :| 0 <= i < |legs| && legs[i].cash && legs[i].status !in {CashDue, Succeeded};
      assert after[i] == legs[i];
    } else {
      var i :| 0 <= i < |legs| && !legs[i].cash && legs[i].status != Succeeded;
      assert task != ConfirmCash;
      if op.scenario == UnknownForever {
        assert !after[i].cash && after[i].status != Succeeded;
      } else {
        var k :| 0 <= k < |legs| && legs[k].status == Failed;
        assert task == Inquire && after[k] == legs[k];
        var j :| 0 <= j < |legs| && Queryable(legs[j]);
        assert after[j].status == Succeeded && after[k].status == Failed;
      }
    }
  }

  // ----- The sale -----

  predicate OperatesOn(o: nat, actions: seq<Action>) {
    forall i | 0 <= i < |actions| :: actions[i].Operate? && actions[i].operation == o
  }

  function OperateNow(s: Sale, o: nat, task: Task, env: Environment): Action
    requires o < |s.operations|
  {
    Operate(task, o, s.operations[o].version, env)
  }

  /** The operation can be brought to its end, and the sale will take it. */
  predicate CanFinish(s: Sale, o: nat)
    requires o < |s.operations|
  {
    var op := s.operations[o];
    Finishable(op) && Finalizable(s, op.quantities, op.total)
  }

  predicate UnderWay(s: Sale, o: nat) {
    o < |s.operations| && !s.operations[o].finalized && LegsFit(s.operations[o].legs)
  }

  /** What an accepted task makes of an operation under way. */
  lemma TaskStep(s: Sale, o: nat, a: Action)
    requires UnderWay(s, o) && a.Operate? && a.operation == o && a.expected == s.operations[o].version
    requires s.operations[o].status != Completed && TaskLegs(s.operations[o], a.task, a.env.sandbox).Ok?
    ensures var op, legs, after := s.operations[o], TaskLegs(s.operations[o], a.task, a.env.sandbox).value, Step(s, a);
            if !AllSucceeded(legs) then
              after == s.(operations := s.operations[o := op.(legs := legs, status := DeriveStatus(op.status, legs),
                                                              version := op.version + 1)])
            else if Finalizable(s, op.quantities, op.total) && a.env.shiftOpen then
              |after.operations| == |s.operations| && after.operations[o].finalized && Settled(after.operations[o])
            else after == s
  {
    hide TaskLegs, DeriveStatus, PostMissing;
  }

  /** A task that is refused changes nothing. */
  lemma RefusedTask(s: Sale, o: nat, a: Action)
    requires UnderWay(s, o) && s.operations[o].status != Completed && a.Operate? && a.operation == o
    requires a.expected != s.operations[o].version || TaskLegs(s.operations[o], a.task, a.env.sandbox).Err?
    ensures Step(s, a) == s
  {
  }

  lemma DerivedNotCompleted(op: Operation)
    requires LegsFit(op.legs) && !AllSucceeded(op.legs)
    ensures DeriveStatus(op.status, op.legs) != Completed
  {
    DerivedNotSettled(op.status, op.legs);
  }

  /** An operation that can finish does, by the next tasks in turn. */
  lemma {:induction false} FinishingRun(s: Sale, o: nat, env: Environment) returns (actions: seq<Action>)
    requires UnderWay(s, o) && CanFinish(s, o) && !AllSucceeded(s.operations[o].legs)
    requires s.operations[o].status != Completed && env.sandbox && env.shiftOpen
    ensures OperatesOn(o, actions) && |actions| <= TasksLeft(s.operations[o])
    ensures o < |Run(s, actions).operations|
    ensures Run(s, actions).operations[o].finalized && Settled(Run(s, actions).operations[o])
    decreases TasksLeft(s.operations[o])
  {
    hide Step, Finishable, TaskLegs, DeriveStatus, TasksLeft, LegsFit, NextTask, Finalizable;
    var op := s.operations[o];
    var a := OperateNow(s, o, NextTask(op.legs), env);
    NextTaskAdvances(op);
    TaskStep(s, o, a);
    var legs, next := TaskLegs(op, NextTask(op.legs), true).value, Step(s, a);
    if AllSucceeded(legs) {
      actions := [a];
      assert Run(s, actions) == Run(next, []);
      SomeTaskLeft(op);
    } else {
      DerivedNotCompleted(op.(legs := legs));
      SameTasksLeft(op.(legs := legs), next.operations[o]);
      FinalizableSame(s, next, op.quantities, op.total);
      var rest := FinishingRun(next, o, env);
      actions := [a] + rest;
      assert actions[1..] == rest;
    }
  }

  lemma SomeTaskLeft(op: Operation)
    ensures TasksLeft(op) >= 1
  {
  }

  lemma SameTasksLeft(a: Operation, b: Operation)
    requires a.legs == b.legs && a.scenario == b.scenario
    ensures TasksLeft(a) == TasksLeft(b) && (Finishable(a) <==> Finishable(b))
  {
  }

  lemma FinalizableSame(s: Sale, after: Sale, quantities: seq<nat>, total: nat)
    requires after == s.(operations := after.operations)
    ensures Finalizable(after, quantities, total) <==> Finalizable(s, quantities, total)
  {
  }

  /** One that cannot stays where it is, whatever is tried on it. */
  lemma StuckStep(s: Sale, o: nat, a: Action)
    requires UnderWay(s, o) && s.operations[o].status != Completed && !CanFinish(s, o)
    requires a.Operate? && a.operation == o
    ensures var after := Step(s, a);
            UnderWay(after, o) && after.operations[o].status != Completed && !CanFinish(after, o)
  {
    hide Step, Finishable, TaskLegs, DeriveStatus, LegsFit, Finalizable;
    var op := s.operations[o];
    if a.expected != op.version || TaskLegs(op, a.task, a.env.sandbox).Err? {
      RefusedTask(s, o, a);
    } else {
      var legs, after := TaskLegs(op, a.task, a.env.sandbox).value, Step(s, a);
      TaskStep(s, o, a);
      TaskLegsFit(op, a.task, a.env.sandbox);
      if !Finishable(op) {
        NoTaskHelps(op, a.task, a.env.sandbox);
        if AllSucceeded(legs) { AllSucceededIsFinishable(op.(legs := legs)); }
      }
      if !AllSucceeded(legs) {
        DerivedNotCompleted(op.(legs := legs));
        SameTasksLeft(op.(legs := legs), after.operations[o]);
        FinalizableSame(s, after, op.quantities, op.total);
      }
    }
  }

  lemma {:induction false} StuckRun(s: Sale, o: nat, actions: seq<Action>)
    requires UnderWay(s, o) && s.operations[o].status != Completed && !CanFinish(s, o) && OperatesOn(o, actions)
    ensures UnderWay(Run(s, actions), o)
    decreases |actions|
  {
    hide Step, CanFinish, LegsFit;
    if actions != [] {
      StuckStep(s, o, actions[0]);
      StuckRun(Step(s, actions[0]), o, actions[1..]);
    }
  }

  lemma ReachableUnderWay(total: nat, sold: seq<nat>, payments: seq<Payment>, history: seq<Action>, o: nat)
    requires var s := Run(FreshSale(total, sold, payments), history); o < |s.operations| && !s.operations[o].finalized
    ensures var s := Run(FreshSale(total, sold, payments), history);
            UnderWay(s, o) && s.operations[o].status != Completed && !AllSucceeded(s.operations[o].legs)
  {
    hide Run, Inv;
    var s := FreshSale(total, sold, payments);
    FreshInv(total, sold, payments);
    RunKeeps(s, history);
    TracksRun(s, history);
    OperationsFit(Run(s, history), o);
    assert Tracks(Run(s, history).operations[o]);
  }

  /** The operation is finalized after these actions. */
  predicate Finalizes(s: Sale, actions: seq<Action>, o: nat) {
    o < |Run(s, actions).operations| && Run(s, actions).operations[o].finalized
  }

  /**
   In every reachable state, an operation under way can be finished by tasks of an operator exactly when
   its legs allow it and the sale still takes it; otherwise it waits for a webhook, or for ever.
   */
  lemma FinishedByTasksExactly(total: nat, sold: seq<nat>, payments: seq<Payment>, history: seq<Action>, o: nat)
    requires var s := Run(FreshSale(total, sold, payments), history); o < |s.operations| && !s.operations[o].finalized
    ensures var s := Run(FreshSale(total, sold, payments), history);
            (exists tasks :: OperatesOn(o, tasks) && Finalizes(s, tasks, o)) <==>
            CanFinish(s, o)
  {
    hide Run, CanFinish, LegsFit;
    ReachableUnderWay(total, sold, payments, history, o);
    var s := Run(FreshSale(total, sold, payments), history);
    if CanFinish(s, o) {
      var tasks := FinishingRun(s, o, Environment(true, true, true));
      assert OperatesOn(o, tasks) && Finalizes(s, tasks, o);
    } else {
      forall tasks | OperatesOn(o, tasks) ensures UnderWay(Run(s, tasks), o) {
        StuckRun(s, o, tasks);
      }
    }
  }

  // ----- From the beginning -----

  /** Open quotes still fit into the sale. */
  predicate OpenQuotesFit(s: Sale) {
    forall q | 0 <= q < |s.quotes| && s.quotes[q].orderVersion == s.version ::
      Finalizable(s, s.quotes[q].quantities, s.quotes[q].total)
  }

  lemma QuoteFits(s: Sale, a: Action)
    requires a.CreateQuote? && Apply(s, a).Ok?
    ensures Finalizable(s, a.quantities, a.total)
  {
    hide Allocate;
  }

  lemma OpenQuotesStep(s: Sale, a: Action)
    requires Inv(s) && OpenQuotesFit(s)
    ensures OpenQuotesFit(Step(s, a))
  {
    hide Step, Inv, Finalizable, Allocate;
    var after := Step(s, a);
    var effect := StepEffect(s, a);
    forall q | 0 <= q < |after.quotes| && after.quotes[q].orderVersion == after.version
      ensures Finalizable(after, after.quotes[q].quantities, after.quotes[q].total)
    {
      if effect.Began? || after.version > s.version {
        assert q < |s.quotes| && after.quotes[q].orderVersion == s.quotes[q].orderVersion;
        QuoteNotAhead(s, q);
      } else if effect.Quoted? && q == |s.quotes| {
        if Apply(s, a).Ok? { QuoteFits(s, a); }
        QuotedApplied(s, a);
        FinalizableAgain(s, after, after.quotes[q].quantities, after.quotes[q].total);
      } else {
        FinalizableAgain(s, after, s.quotes[q].quantities, s.quotes[q].total);
      }
    }
  }

  lemma QuotedApplied(s: Sale, a: Action)
    ensures Apply(s, a).Err? ==> Step(s, a) == s
  {
    hide Apply;
  }

  lemma QuoteNotAhead(s: Sale, q: nat)
    requires Inv(s) && q < |s.quotes|
    ensures s.quotes[q].orderVersion <= s.version
  {
  }

  lemma FinalizableAgain(s: Sale, after: Sale, quantities: seq<nat>, total: nat)
    requires after.status == s.status && after.returned == s.returned && after.refunded == s.refunded
    requires after.sold == s.sold && after.total == s.total
    ensures Finalizable(after, quantities, total) <==> Finalizable(s, quantities, total)
  {
  }

  lemma {:induction false} OpenQuotesRun(s: Sale, actions: seq<Action>)
    requires Inv(s) && OpenQuotesFit(s)
    ensures OpenQuotesFit(Run(s, actions))
    decreases |actions|
  {
    hide Step, Inv, OpenQuotesFit;
    if actions != [] {
      StepKeeps(s, actions[0]);
      OpenQuotesStep(s, actions[0]);
      OpenQuotesRun(Step(s, actions[0]), actions[1..]);
    }
  }

  /** How the legs of a fresh operation stand: cash is due, and every provider leg is where its first call left it. */
  predicate Fresh(op: Operation) {
    && op.legs != []
    && forall i | 0 <= i < |op.legs| :: op.legs[i] == StartLeg(op.legs[i].cash, op.scenario)
  }

  lemma FreshFinishable(op: Operation)
    requires Fresh(op) && op.scenario != UnknownForever
    ensures Finishable(op) && TasksLeft(op) <= 2
  {
    if Has(op.legs, Failed) {
      assert op.scenario == FailsOnce;
      assert forall i | 0 <= i < |op.legs| :: op.legs[i].status in {CashDue, Failed};
    }
  }

  /** A provider that never answers leaves only inquiries, and they leave the operation as unknown as before. */
  lemma SilentProviderStaysUnknown(op: Operation, task: Task)
    requires Fresh(op) && op.scenario == UnknownForever && exists i | 0 <= i < |op.legs| :: !op.legs[i].cash
    ensures TaskLegs(op, task, true).Ok? <==> task == Inquire
    ensures task == Inquire ==> var legs := TaskLegs(op, task, true).value;
              && !AllSucceeded(legs) && Has(legs, Unknown)
              && forall i | 0 <= i < |legs| :: legs[i].status == op.legs[i].status
  {
    var i :| 0 <= i < |op.legs| && !op.legs[i].cash;
    assert op.legs[i].status == Unknown && Queryable(op.legs[i]);
    if task == Inquire {
      var legs := TaskLegs(op, task, true).value;
      assert legs[i].status == Unknown;
    }
  }

  /** What an accepted execution leaves: the operation is paid, or fresh and under way. */
  lemma Executed(s: Sale, a: Action)
    requires Inv(s) && a.Execute? && !KeyUsed(s, a.key) && Apply(s, a).Ok?
    ensures var o, after := |s.operations|, Step(s, a);
            && o < |after.operations|
            && var op := after.operations[o];
            if op.finalized then Settled(op)
            else
              && Fresh(op) && op.scenario == a.scenario && op.status != Completed
              && !AllSucceeded(op.legs) && LegsFit(op.legs)
              && a.quote < |s.quotes| && s.quotes[a.quote].orderVersion == s.version
              && op.quantities == s.quotes[a.quote].quantities && op.total == s.quotes[a.quote].total
              && after.status == s.status && after.returned == s.returned && after.refunded == s.refunded
              && after.sold == s.sold && after.total == s.total
  {
    hide DeriveStatus, PostMissing, Inv, LegsFit;
    QuoteSharesSome(s, a.quote);
    StartLegsFit(s.payments, s.quotes[a.quote].shares, a.scenario);
    var begun := Begin(s, a.key, a.quote, a.scenario);
    var op := begun.operations[|s.operations|];
    assert Fresh(op);
    if !AllSucceeded(op.legs) { DerivedNotCompleted(op); }
  }

  /**
   From any reachable state, whatever the sandbox provider does short of never answering: an accepted
   execution and at most two tasks of an operator post the refund and bring it to its final state.
   */
  lemma RefundCanFinish(total: nat, sold: seq<nat>, payments: seq<Payment>, history: seq<Action>,
                        execute: Action, env: Environment)
    returns (tasks: seq<Action>)
    requires execute.Execute? && execute.scenario != UnknownForever && env.sandbox && env.shiftOpen
    requires var s := Run(FreshSale(total, sold, payments), history); !KeyUsed(s, execute.key) && Apply(s, execute).Ok?
    ensures var s := Run(FreshSale(total, sold, payments), history);
            var o, after := |s.operations|, Run(Step(s, execute), tasks);
            && OperatesOn(o, tasks) && |tasks| <= 2
            && o < |after.operations| && after.operations[o].finalized && Settled(after.operations[o])
  {
    hide Run, Step, Apply, Inv, OpenQuotesFit, Finalizable, LegsFit, Fresh;
    var start := FreshSale(total, sold, payments);
    var s := Run(start, history);
    var o := |s.operations|;
    FreshInv(total, sold, payments);
    RunKeeps(start, history);
    assert OpenQuotesFit(s) by { FreshQuotesFit(total, sold, payments); OpenQuotesRun(start, history); }
    Executed(s, execute);
    var begun := Step(s, execute);
    if begun.operations[o].finalized {
      tasks := [];
      RunNone(begun);
    } else {
      var op := begun.operations[o];
      FreshFinishable(op);
      OpenQuoteFits(s, execute.quote);
      FinalizableAgain(s, begun, op.quantities, op.total);
      tasks := FinishingRun(begun, o, env);
    }
  }

  lemma FreshQuotesFit(total: nat, sold: seq<nat>, payments: seq<Payment>)
    ensures OpenQuotesFit(FreshSale(total, sold, payments))
  {
  }

  lemma OpenQuoteFits(s: Sale, q: nat)
    requires OpenQuotesFit(s) && q < |s.quotes| && s.quotes[q].orderVersion == s.version
    ensures Finalizable(s, s.quotes[q].quantities, s.quotes[q].total)
  {
  }

  lemma RunNone(s: Sale)
    ensures Run(s, []) == s
  {
  }
}
