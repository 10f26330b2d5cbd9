/**
 Exactly which requests the refund protocol accepts, with which error it refuses the others, and what an
 accepted one changes: told from the state before it, leg by leg and field by field.
 */
module RefundRequests {
  import opened Wrappers
  import opened Sums
  import opened UniqueTable
  import opened RefundProtocol
  import opened RefundSafety
  import opened RefundHistory
  import opened RefundPosting
  import opened RefundProgress
  import opened RefundReports

  // ----- Settling -----

  predicate Done(legs: seq<Leg>) {
    forall i | 0 <= i < |legs| :: legs[i].status == Succeeded
  }

  /** The books after operation `o` has been posted: its total, its quantities and its shares, once. */
  predicate Booked(s: Sale, after: Sale, o: nat)
    requires o < |s.operations|
  {
    var op := s.operations[o];
    && after.refunded == s.refunded + op.total
    && (after.status == if after.refunded >= s.total then Refunded else PartiallyRefunded)
    && after.version == s.version + 1
    && |after.returned| == |s.returned| == |op.quantities|
    && (forall i | 0 <= i < |s.returned| :: after.returned[i] == s.returned[i] + op.quantities[i])
    && |after.ledger| == |s.ledger| + |op.shares| && s.ledger <= after.ledger
    && (forall k | 0 <= k < |op.shares| ::
          after.ledger[|s.ledger| + k] == Entry(o, op.shares[k].payment, op.shares[k].amount))
  }

  predicate SameBooks(s: Sale, after: Sale) {
    && after.refunded == s.refunded && after.status == s.status && after.version == s.version
    && after.returned == s.returned && after.ledger == s.ledger
  }

  /** The error of an operation that has succeeded but cannot be posted. */
  predicate NotPosted(s: Sale, op: Operation, shiftOpen: bool, error: RefundError) {
    && (error == NotRefundable <==> s.status == Refunded)
    && (error == OverRefund <==> s.status != Refunded && !Finalizable(s, op.quantities, op.total))
    && (error == ShiftClosed <==> Finalizable(s, op.quantities, op.total) && !shiftOpen)
    && error in {NotRefundable, OverRefund, ShiftClosed}
  }

  /** Operation `o` has got its new legs, and nothing else of it or of any other operation has changed by itself. */
  predicate Advanced(s: Sale, after: Sale, o: nat, legs: seq<Leg>)
    requires o < |s.operations|
  {
    && |after.operations| == |s.operations|
    && (forall k | 0 <= k < |s.operations| && k != o :: after.operations[k] == s.operations[k])
    && var op, now := s.operations[o], after.operations[o];
    && now == op.(legs := legs, status := now.status, finalized := now.finalized, version := op.version + 1)
    && after.total == s.total && after.sold == s.sold && after.payments == s.payments
    && after.quotes == s.quotes && after.events == s.events
  }

  /**
   What becomes of an operation that gets these legs. All succeeded, it is posted, unless it was before or
   the sale no longer takes it; otherwise its status says how its legs stand, and the books do not move.
   */
  predicate Becomes(s: Sale, r: Result<Sale, RefundError>, o: nat, legs: seq<Leg>, env: Environment)
    requires o < |s.operations|
  {
    var op := s.operations[o];
    match r
    case Err(error) => Done(legs) && !op.finalized && NotPosted(s, op, env.shiftOpen, error)
    case Ok(after) =>
      && Advanced(s, after, o, legs)
      && var now := after.operations[o];
      && (if !Done(legs) then now.finalized == op.finalized && SaysItsLegs(now) && SameBooks(s, after)
          else if op.finalized then now.finalized && now.status == op.status && SameBooks(s, after)
          else
            && now.finalized && (now.status == if env.creditNoteReady then Completed else TaxPending)
            && Finalizable(s, op.quantities, op.total) && env.shiftOpen && Booked(s, after, o))
  }

  lemma SettlePosts(s: Sale, o: nat, legs: seq<Leg>, env: Environment)
    requires Inv(s) && o < |s.operations| && AllSucceeded(legs) && !s.operations[o].finalized
    ensures Becomes(s, Settle(s, o, legs, env), o, legs, env)
  {
    hide PostMissing, Sum, Recorded, Balanced;
    if Settle(s, o, legs, env).Ok? {
      FinalizeLedger(s, o, legs, env);
      OperationsFit(s, o);
    }
  }

  lemma SettleMovesOn(s: Sale, o: nat, legs: seq<Leg>, env: Environment)
    requires o < |s.operations| && LegsFit(legs)
    requires AllSucceeded(legs) ==> s.operations[o].finalized
    ensures Becomes(s, Settle(s, o, legs, env), o, legs, env)
  {
    hide DeriveStatus, SaysItsLegs;
    var after := Settle(s, o, legs, env).value;
    if !AllSucceeded(legs) { DerivedSays(after.operations[o]); }
  }

  lemma SettleBecomes(s: Sale, o: nat, legs: seq<Leg>, env: Environment)
    requires Inv(s) && o < |s.operations| && LegsFit(legs)
    ensures Becomes(s, Settle(s, o, legs, env), o, legs, env)
  {
    hide Settle, Becomes, Inv;
    if AllSucceeded(legs) && !s.operations[o].finalized {
      SettlePosts(s, o, legs, env);
    } else {
      SettleMovesOn(s, o, legs, env);
    }
  }

  // ----- What an operator asks for -----

  /** No two operations were requested under the same key. */
  predicate KeysApart(operations: seq<Operation>) {
    forall i, j | 0 <= i < j < |operations| :: operations[i].key != operations[j].key
  }

  lemma KeysStep(s: Sale, a: Action)
    requires Inv(s) && KeysApart(s.operations)
    ensures KeysApart(Step(s, a).operations)
  {
    hide Step, Inv;
    var effect := StepEffect(s, a);
    var after := Step(s, a);
    match effect
    case Nothing =>
    case Quoted(_) =>
    case Began(key, q, scenario) =>
      var begun := Begin(s, key, q, scenario);
      forall i, j | 0 <= i < j < |after.operations| ensures after.operations[i].key != after.operations[j].key {
        assert after.operations[i].key == begun.operations[i].key && after.operations[j].key == begun.operations[j].key;
      }
    case Moved(o) =>
      assert forall i | 0 <= i < |s.operations| :: after.operations[i].key == s.operations[i].key;
  }

  lemma {:induction false} KeysRun(s: Sale, actions: seq<Action>)
    requires Inv(s) && KeysApart(s.operations)
    ensures KeysApart(Run(s, actions).operations)
    decreases |actions|
  {
    hide Step, Inv, KeysApart;
    if actions != [] {
      StepKeeps(s, actions[0]);
      KeysStep(s, actions[0]);
      KeysRun(Step(s, actions[0]), actions[1..]);
    }
  }

  /** In every reachable state. */
  ghost predicate Sound(s: Sale) {
    Inv(s) && AllTrack(s) && DistinctKeys(IdOf, s.events) && KeysApart(s.operations)
  }

  lemma SoundRun(total: nat, sold: seq<nat>, payments: seq<Payment>, actions: seq<Action>)
    ensures Sound(Run(FreshSale(total, sold, payments), actions))
  {
    FreshInv(total, sold, payments);
    RunKeeps(FreshSale(total, sold, payments), actions);
    TracksRun(FreshSale(total, sold, payments), actions);
    LogIsFirstCommitted(total, sold, payments, actions);
    KeysRun(FreshSale(total, sold, payments), actions);
  }

  /** Each leg that is called has one more attempt and the provider's answer; the others are as they were. */
  predicate Answered(legs: seq<Leg>, now: seq<Leg>, asked: set<LegStatus>, answer: LegStatus) {
    && |now| == |legs|
    && forall i | 0 <= i < |legs| ::
         now[i] == if !legs[i].cash && legs[i].status in asked
                   then Leg(false, answer, legs[i].attempts + 1, legs[i].sequence) else legs[i]
  }

  lemma TaskSettles(s: Sale, task: Task, o: nat, env: Environment)
    requires Sound(s) && o < |s.operations|
    ensures var op := s.operations[o];
            var r, legs := Apply(s, Operate(task, o, op.version, env)), TaskLegs(op, task, env.sandbox);
            if task == ConfirmCash && op.status == Completed then r == Ok(s)
            else if legs.Err? then r == Err(legs.error)
            else Becomes(s, r, o, legs.value, env)
  {
    hide TaskLegs, Becomes, Settle, Inv, LegsFit;
    var op := s.operations[o];
    assert Tracks(op);
    if TaskLegs(op, task, env.sandbox).Ok? && !(task == ConfirmCash && op.status == Completed) {
      TaskLegsFit(op, task, env.sandbox);
      SettleBecomes(s, o, TaskLegs(op, task, env.sandbox).value, env);
    }
  }

  lemma TracksFit(s: Sale, o: nat)
    requires Sound(s) && o < |s.operations|
    ensures LegsFit(s.operations[o].legs)
  {
    assert Tracks(s.operations[o]);
  }

  /** A cash confirmation: which one is refused why, and what an accepted one does. */
  lemma ConfirmCashExactly(s: Sale, o: nat, expected: nat, env: Environment) returns (now: seq<Leg>)
    requires Sound(s)
    ensures var r := Apply(s, Operate(ConfirmCash, o, expected, env));
            if o >= |s.operations| then r == Err(OperationNotFound)
            else
              var op, legs := s.operations[o], s.operations[o].legs;
              if op.version != expected then r == Err(VersionConflict)
              else if op.status == Completed then r == Ok(s)
              else if (forall i | 0 <= i < |legs| :: !legs[i].cash)
                      || (exists i | 0 <= i < |legs| :: legs[i].cash && legs[i].status !in {CashDue, Succeeded}) then
                r == Err(CashNotDue)
              else if exists i | 0 <= i < |legs| :: !legs[i].cash && legs[i].status != Succeeded then
                r == Err(ProviderNotSucceeded)
              else
                && |now| == |legs|
                && (forall i | 0 <= i < |legs| ::
                      now[i] == if legs[i].cash then Leg(true, Succeeded, legs[i].attempts, legs[i].sequence)
                                else legs[i])
                && Done(now) && Becomes(s, r, o, now, env)
  {
    hide Becomes, Settle, Inv, Tracks;
    now := [];
    if o < |s.operations| {
      var op := s.operations[o];
      TaskSettles(s, ConfirmCash, o, env);
      if TaskLegs(op, ConfirmCash, env.sandbox).Ok? { now := TaskLegs(op, ConfirmCash, env.sandbox).value; }
    }
  }

  /** An inquiry calls the provider for each leg that is processing or unknown. */
  lemma InquireExactly(s: Sale, o: nat, expected: nat, env: Environment) returns (now: seq<Leg>)
    requires Sound(s)
    ensures var r := Apply(s, Operate(Inquire, o, expected, env));
            if o >= |s.operations| then r == Err(OperationNotFound)
            else
              var op, legs := s.operations[o], s.operations[o].legs;
              if op.version != expected then r == Err(VersionConflict)
              else if forall i | 0 <= i < |legs| :: legs[i].cash || legs[i].status !in {Processing, Unknown} then
                r == Err(InquiryNotAvailable)
              else if !env.sandbox then r == Err(ProviderDisabled)
              else
                && Answered(legs, now, {Processing, Unknown},
                            if op.scenario == UnknownForever then Unknown else Succeeded)
                && Becomes(s, r, o, now, env)
  {
    hide Becomes, Settle, Inv, Tracks;
    now := [];
    if o < |s.operations| {
      var op := s.operations[o];
      TaskSettles(s, Inquire, o, env);
      if TaskLegs(op, Inquire, env.sandbox).Ok? { now := TaskLegs(op, Inquire, env.sandbox).value; }
    }
  }

  /** The provider's answer to a request that it has had before. */
  function AnswerToRetry(scenario: Scenario): LegStatus {
    match scenario
    case Succeeds => Succeeded
    case FailsOnce => Succeeded
    case ProcessingThenSucceeds => Processing
    case UnknownThenSucceeds => Unknown
    case UnknownForever => Unknown
  }

  /** A retry calls the provider for each declined leg, unless a leg is unknown or one has succeeded. */
  lemma RetryExactly(s: Sale, o: nat, expected: nat, env: Environment) returns (now: seq<Leg>)
    requires Sound(s)
    ensures var r := Apply(s, Operate(Retry, o, expected, env));
            if o >= |s.operations| then r == Err(OperationNotFound)
            else
              var op, legs := s.operations[o], s.operations[o].legs;
              if op.version != expected then r == Err(VersionConflict)
              else if exists i | 0 <= i < |legs| :: legs[i].status == Unknown then r == Err(InquiryRequired)
              else if (forall i | 0 <= i < |legs| :: legs[i].cash || legs[i].status != Failed)
                      || (exists i | 0 <= i < |legs| :: legs[i].status == Succeeded) then
                r == Err(RetryNotSafe)
              else if !env.sandbox then r == Err(ProviderDisabled)
              else
                && Answered(legs, now, {Failed}, AnswerToRetry(op.scenario))
                && Becomes(s, r, o, now, env)
  {
    hide Becomes, Settle, Inv, Tracks;
    now := [];
    if o < |s.operations| {
      var op := s.operations[o];
      TaskSettles(s, Retry, o, env);
      TracksFit(s, o);
      if TaskLegs(op, Retry, env.sandbox).Ok? { now := TaskLegs(op, Retry, env.sandbox).value; }
    }
  }

  // ----- Cash -----

  /** A signed report of success on the leg itself. */
  predicate ReportsSuccess(s: Sale, a: Action, o: nat, i: nat) {
    Lands(s, a, o) && a.event.leg == i && a.event.report == Succeeded
  }

  /** The legs of operation `o` after an attempt. */
  lemma OutcomeLegs(s: Sale, after: Sale, t: Attempt, o: nat)
    requires Outcome(s, after, t) && o < |s.operations|
    ensures o < |after.operations|
    ensures after.operations[o].legs == s.operations[o].legs || (t.operation == o && after.operations[o].legs == t.legs)
  {
  }

  lemma AttemptKind(s: Sale, a: Action)
    requires Attempted(s, a).Some?
    ensures var t := Attempted(s, a).value;
            || (a.Execute? && t.operation == |s.operations|)
            || (a.Operate? && t.operation == a.operation)
            || (a.Deliver? && t.operation == a.event.operation && Lands(s, a, t.operation)
                && t.legs == ReportLegs(s.operations[t.operation].legs, a.event))
  {
    hide TaskLegs;
  }

  lemma NoAttemptGrows(s: Sale, a: Action)
    requires Attempted(s, a).None?
    ensures |s.operations| == |Step(s, a).operations|
  {
    hide Settle, TaskLegs;
  }

  lemma CashByTask(s: Sale, a: Action, i: nat)
    requires Sound(s) && a.Operate? && a.operation < |s.operations| && i < |s.operations[a.operation].legs|
    requires s.operations[a.operation].legs[i].cash && s.operations[a.operation].legs[i].status != Succeeded
    ensures var o, after := a.operation, Step(s, a);
            var legs := s.operations[o].legs;
            && o < |after.operations| && i < |after.operations[o].legs|
            && (after.operations[o].legs[i].status == Succeeded ==>
                  && a.task == ConfirmCash && a.expected == s.operations[o].version
                  && (forall j | 0 <= j < |legs| && !legs[j].cash :: legs[j].status == Succeeded)
                  && (forall j | 0 <= j < |legs| && legs[j].cash :: legs[j].status in {CashDue, Succeeded})
                  && Done(after.operations[o].legs) && after.operations[o].finalized)
  {
    hide Apply, Inv, AllTrack, Booked, NotPosted, SaysItsLegs, Finalizable;
    match a.task
    case ConfirmCash => var now := ConfirmCashExactly(s, a.operation, a.expected, a.env);
    case Inquire => var now := InquireExactly(s, a.operation, a.expected, a.env);
    case Retry => var now := RetryExactly(s, a.operation, a.expected, a.env);
  }

  /**
   Cash is released only after the provider has paid: a cash leg becomes succeeded by a confirmation, with all
   provider legs of the operation succeeded before and the refund posted by it, or by a webhook on that very leg.
   */
  lemma CashWaitsForProviders(s: Sale, a: Action, o: nat, i: nat)
    requires Sound(s) && o < |s.operations| && i < |s.operations[o].legs|
    requires s.operations[o].legs[i].cash && s.operations[o].legs[i].status != Succeeded
    ensures var after, legs := Step(s, a), s.operations[o].legs;
            && o < |after.operations| && i < |after.operations[o].legs|
            && (after.operations[o].legs[i].status == Succeeded ==>
                  || ReportsSuccess(s, a, o, i)
                  || (&& a == Operate(ConfirmCash, o, s.operations[o].version, a.env)
                      && (forall j | 0 <= j < |legs| && !legs[j].cash :: legs[j].status == Succeeded)
                      && (forall j | 0 <= j < |legs| && legs[j].cash :: legs[j].status in {CashDue, Succeeded})
                      && Done(after.operations[o].legs) && after.operations[o].finalized))
  {
    hide Step, Inv, Outcome, TaskLegs, Settle, LegsFit, Attempted;
    if Attempted(s, a).None? {
      NoAttempt(s, a, o);
      NoAttemptGrows(s, a);
    } else {
      AttemptOutcome(s, a);
      var t := Attempted(s, a).value;
      OutcomeLegs(s, Step(s, a), t, o);
      AttemptKind(s, a);
      if a.Operate? && a.operation == o {
        CashByTask(s, a, i);
      }
    }
  }

  // ----- Quotes and their execution -----

  /** A quote: which one is refused why, and what an accepted one appends. */
  lemma QuoteExactly(s: Sale, quantities: seq<nat>, total: nat)
    requires Sound(s)
    ensures var r, allocation := Apply(s, CreateQuote(quantities, total)), Allocate(s.payments, UsedAll(s), 0, total);
            if s.status == Refunded then r == Err(NotRefundable)
            else if |quantities| != |s.sold| || (forall i | 0 <= i < |quantities| :: quantities[i] == 0) then
              r == Err(ItemsInvalid)
            else if (exists i | 0 <= i < |s.sold| :: quantities[i] > s.sold[i] - s.returned[i])
                    || total == 0 || total > s.total - s.refunded then
              r == Err(OverRefund)
            else if s.payments == [] then r == Err(PaymentMissing)
            else if allocation.Err? then r == Err(allocation.error)
            else r == Ok(s.(quotes := s.quotes + [Quote(s.version, quantities, total, allocation.value, false)]))
  {
    hide Allocate, UsedAll, Sum, Balanced, Recorded, AllTrack;
    BalancedSaysEnough(s);
  }

  lemma BalancedSaysEnough(s: Sale)
    requires Inv(s)
    ensures |s.returned| == |s.sold| && s.refunded <= s.total
  {
    hide Sum, Recorded;
  }

  /** The provider's answer to the first request. */
  function FirstAnswer(scenario: Scenario): LegStatus {
    match scenario
    case Succeeds => Succeeded
    case FailsOnce => Failed
    case ProcessingThenSucceeds => Processing
    case UnknownThenSucceeds => Unknown
    case UnknownForever => Unknown
  }

  /** The sale in which quote `q` is consumed, and a new operation has its terms and these legs. */
  predicate Opened(s: Sale, begun: Sale, key: string, q: nat, scenario: Scenario, legs: seq<Leg>)
    requires q < |s.quotes|
  {
    var quote := s.quotes[q];
    && begun == s.(version := s.version + 1, quotes := begun.quotes, operations := begun.operations)
    && begun.quotes == s.quotes[q := quote.(consumed := true)]
    && begun.operations == s.operations + [Operation(key, q, quote.quantities, quote.total, quote.shares, scenario,
                                                     legs, OpProcessing, false, 1)]
    && |legs| == |quote.shares|
    && forall i | 0 <= i < |legs| ::
         && quote.shares[i].payment < |s.payments|
         && legs[i] == if s.payments[quote.shares[i].payment].cash then Leg(true, CashDue, 0, 0)
                       else Leg(false, FirstAnswer(scenario), 1, 0)
  }

  /** An execution: which one is refused why, and what an accepted one begins. */
  lemma ExecuteExactly(s: Sale, key: string, q: nat, scenario: Scenario, approved: bool, unexpired: bool,
                       env: Environment)
      returns (begun: Sale, legs: seq<Leg>)
    requires Sound(s)
    ensures var r := Apply(s, Execute(key, q, scenario, approved, unexpired, env));
            if exists o | 0 <= o < |s.operations| :: s.operations[o].key == key then
              if exists o | 0 <= o < |s.operations| ::
                s.operations[o].key == key && s.operations[o].quote == q && s.operations[o].scenario == scenario
              then r == Ok(s) else r == Err(DuplicateRequest)
            else if !approved then r == Err(MakerCheckerRequired)
            else if q >= |s.quotes| then r == Err(QuoteNotFound)
            else if s.quotes[q].consumed || !unexpired then r == Err(StaleQuote)
            else if s.quotes[q].orderVersion != s.version then r == Err(VersionConflict)
            else
              && Opened(s, begun, key, q, scenario, legs)
              && if !env.sandbox && exists i | 0 <= i < |legs| :: !legs[i].cash then r == Err(ProviderDisabled)
                 else Becomes(begun, r, |s.operations|, legs, env)
  {
    hide Becomes, Settle, Sum, Balanced, Recorded, AllTrack;
    begun, legs := s, [];
    if q < |s.quotes| {
      assert TermsFit(s, s.quotes[q].quantities, s.quotes[q].total, s.quotes[q].shares);
      assert SharesValid(s, s.quotes[q].shares);
      begun := Begin(s, key, q, scenario);
      legs := begun.operations[|s.operations|].legs;
      BeginKeeps(s, key, q, scenario);
      QuoteSharesSome(s, q);
      StartLegsFit(s.payments, s.quotes[q].shares, scenario);
      SettleBecomes(begun, |s.operations|, legs, env);
    }
  }

  lemma ExecutedUnderKey(s: Sale, first: Action)
    requires Inv(s) && first.Execute? && !KeyUsed(s, first.key) && Apply(s, first).Ok?
    ensures var after := Step(s, first);
            && |after.operations| == |s.operations| + 1
            && var op := after.operations[|s.operations|];
            op.key == first.key && op.quote == first.quote && op.scenario == first.scenario
  {
    hide Settle, Inv;
    BeginKeeps(s, first.key, first.quote, first.scenario);
    var begun := Begin(s, first.key, first.quote, first.scenario);
    OperationsFit(begun, |s.operations|);
    SettleMoves(begun, |s.operations|, begun.operations[|s.operations|].legs, first.env);
  }

  /**
   A key stands for its request for good: in every later state the same request under it changes nothing, and
   another one, of another quote or for another scenario, is refused as a duplicate.
   */
  lemma KeyStandsForRequest(s: Sale, first: Action, actions: seq<Action>, again: Action)
    requires Sound(s) && first.Execute? && again.Execute? && again.key == first.key
    requires Apply(s, first).Ok? && forall o | 0 <= o < |s.operations| :: s.operations[o].key != first.key
    ensures var t := Run(Step(s, first), actions);
            Apply(t, again) == if again.quote == first.quote && again.scenario == first.scenario then Ok(t)
                               else Err(DuplicateRequest)
  {
    hide Run, Step, Inv, Settle, Begin;
    var next := Step(s, first);
    var t := Run(next, actions);
    ExecutedUnderKey(s, first);
    StepKeeps(s, first);
    KeysStep(s, first);
    RunLater(next, actions);
    KeysRun(next, actions);
    var o := |s.operations|;
    assert OperationLater(next.operations[o], t.operations[o]);
    assert forall k | 0 <= k < |t.operations| && t.operations[k].key == first.key :: k == o;
  }

  // ----- The credit note, and what the provider reports -----

  /** Trying the credit note again: only for a posted operation whose tax is pending, and it posts nothing. */
  lemma RetryTaxExactly(s: Sale, o: nat, expected: nat, env: Environment)
    ensures var r := Apply(s, RetryTax(o, expected, env));
            if o >= |s.operations| then r == Err(OperationNotFound)
            else
              var op := s.operations[o];
              if op.version != expected then r == Err(VersionConflict)
              else if !op.finalized || op.status != TaxPending then r == Err(TaxRetryNotAvailable)
              else
                && r.Ok? && Advanced(s, r.value, o, op.legs) && SameBooks(s, r.value)
                && r.value.operations[o].finalized
                && r.value.operations[o].status == if env.creditNoteReady then Completed else TaxPending
  {
  }

  lemma {:induction false} StoredNone(events: seq<Event>, id: string)
    ensures Stored(events, id).None? <==> forall k | 0 <= k < |events| :: events[k].id != id
    ensures forall e | e in events && e.id == id && DistinctKeys(IdOf, events) :: Stored(events, id) == Some(e)
  {
    if events != [] {
      var front := events[..|events| - 1];
      StoredNone(front, id);
      assert DistinctKeys(IdOf, events) ==> DistinctKeys(IdOf, front);
      assert forall e :: e in events <==> e in front || e == events[|events| - 1];
    }
  }

  /** A delivery: which one is refused why, and what the others do to the log and to the leg they report on. */
  lemma DeliverExactly(s: Sale, e: Event, signed: bool, env: Environment) returns (noted: Sale, now: seq<Leg>)
    requires Sound(s)
    ensures var r := Apply(s, Deliver(e, signed, env));
            if e.report in {Requested, CashDue} || e.sequence == 0 then r == Err(InvalidReport)
            else if e.operation >= |s.operations| || e.leg >= |s.operations[e.operation].legs| then
              r == Err(OperationNotFound)
            else if e in s.events then r == Ok(s)
            else if exists k | 0 <= k < |s.events| :: s.events[k].id == e.id then r == Err(EventConflict)
            else
              var legs := s.operations[e.operation].legs;
              && noted == s.(events := s.events + [e])
              && if !signed || e.sequence <= legs[e.leg].sequence then r == Ok(noted)
                 else
                   && |now| == |legs|
                   && (forall i | 0 <= i < |legs| && i != e.leg :: now[i] == legs[i])
                   && now[e.leg] == Leg(legs[e.leg].cash, e.report, legs[e.leg].attempts, e.sequence)
                   && Becomes(noted, r, e.operation, now, env)
  {
    hide Becomes, Settle, Inv;
    noted, now := Remember(s, e), [];
    StoredNone(s.events, e.id);
    if e.operation < |s.operations| && e.leg < |s.operations[e.operation].legs| && Reportable(e) {
      now := ReportLegs(s.operations[e.operation].legs, e);
      RememberKeeps(s, e);
      TracksFit(s, e.operation);
      ReportLegsFit(s.operations[e.operation].legs, e);
      SettleBecomes(noted, e.operation, now, env);
    }
  }
}
