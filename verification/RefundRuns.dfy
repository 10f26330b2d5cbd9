/** Concrete runs on which the refund protocol does what one would not want. */
module RefundRuns {
  import opened Wrappers
  import opened Sums
  import opened RefundProtocol
  import opened RefundSafety
  import opened RefundFinish
  import opened RefundReports

  const CARD := Payment(5000, false, true)
  const CASH := Payment(5000, true, true)
  const ENV := Environment(true, true, true)
  const TO_CARD: seq<Share> := [Share(0, 5000)]
  const QUOTE := CreateQuote([10000], 5000)

  /** Two units sold for 100.00, half of it paid by card and half in cash. */
  function TwoUnitSale(): Sale {
    FreshSale(10000, [20000], [CARD, CASH])
  }

  /** A quote to pay one unit back to the card. */
  function UnitQuote(version: nat, consumed: bool): Quote {
    Quote(version, [10000], 5000, TO_CARD, consumed)
  }

  function UnitOperation(key: string, quote: nat, scenario: Scenario, leg: Leg, status: OperationStatus,
                         finalized: bool, version: nat): Operation
  {
    Operation(key, quote, [10000], 5000, TO_CARD, scenario, [leg], status, finalized, version)
  }

  function Report(id: string, sequence: nat, report: LegStatus): Event {
    Event(id, 0, 0, sequence, report, "")
  }

  // ----- Single steps -----

  lemma CardFirst(used: seq<nat>)
    requires |used| == 2 && used[0] == 0
    ensures Allocate([CARD, CASH], used, 0, 5000) == Ok(TO_CARD)
  {
    assert Allocate([CARD, CASH], used, 1, 0) == Ok([]);
    assert TO_CARD + [] == TO_CARD;
  }

  lemma QuoteStep(s: Sale)
    requires s.status != Refunded && |s.sold| == 1 && QuantitiesFit(s.returned, [10000], s.sold)
    requires s.refunded + 5000 <= s.total && s.payments != []
    requires Allocate(s.payments, UsedAll(s), 0, 5000) == Ok(TO_CARD)
    ensures Apply(s, QUOTE) == Ok(s.(quotes := s.quotes + [UnitQuote(s.version, false)]))
  {
    hide Used, Allocate;
    assert QUOTE.quantities[0] != 0;
  }

  lemma OneLeg(s: Sale, scenario: Scenario)
    requires s.payments != [] && !s.payments[0].cash
    ensures StartLegs(s.payments, TO_CARD, scenario) == [Leg(false, ProviderResult(scenario, 1, false), 1, 0)]
  {
  }

  lemma ExecuteStep(s: Sale, key: string, q: nat, scenario: Scenario, env: Environment, begun: Sale)
    requires q < |s.quotes| && s.quotes[q] == UnitQuote(s.version, false)
    requires s.payments != [] && !s.payments[0].cash && env.sandbox
    requires forall o | 0 <= o < |s.operations| :: s.operations[o].key != key
    requires var leg := Leg(false, ProviderResult(scenario, 1, false), 1, 0);
             begun == s.(version := s.version + 1, quotes := s.quotes[q := UnitQuote(s.version, true)],
                         operations := s.operations + [UnitOperation(key, q, scenario, leg, OpProcessing, false, 1)])
    ensures Apply(s, Execute(key, q, scenario, true, true, env)) ==
            Settle(begun, |s.operations|, [Leg(false, ProviderResult(scenario, 1, false), 1, 0)], env)
  {
    hide Settle;
    OneLeg(s, scenario);
    assert Begin(s, key, q, scenario) == begun;
  }

  lemma DeliverStep(s: Sale, e: Event, leg: Leg)
    requires Reportable(e) && e.operation == e.leg == 0 && Stored(s.events, e.id).None?
    requires |s.operations| > 0 && s.operations[0].legs == [leg] && e.sequence > leg.sequence
    ensures Apply(s, Deliver(e, true, ENV)) ==
            Settle(Remember(s, e), 0, [leg.(status := e.report, sequence := e.sequence)], ENV)
  {
    hide Settle;
    assert [leg][0 := leg.(status := e.report, sequence := e.sequence)] ==
        [leg.(status := e.report, sequence := e.sequence)];
  }

  lemma SettleOpen(s: Sale, o: nat, leg: Leg, status: OperationStatus)
    requires o < |s.operations| && leg.status in {Failed, Processing}
    requires status == if leg.status == Failed then OpFailed else OpProcessing
    ensures Settle(s, o, [leg], ENV) ==
            Ok(s.(operations := s.operations[o := s.operations[o].(legs := [leg], status := status,
                                                                   version := s.operations[o].version + 1)]))
  {
    assert [leg][0].status == leg.status;
  }

  lemma SettlePaid(s: Sale, o: nat, leg: Leg, ledger: seq<Entry>, returned: seq<nat>, env: Environment)
    requires o < |s.operations| && leg.status == Succeeded && !s.operations[o].finalized && s.status != Refunded
    requires QuantitiesFit(s.returned, s.operations[o].quantities, s.sold) && env.shiftOpen
    requires s.refunded + s.operations[o].total <= s.total
    requires returned == AddQuantities(s.returned, s.operations[o].quantities)
    requires ledger == PostMissing(s.ledger, o, s.operations[o].shares)
    ensures Settle(s, o, [leg], env) ==
            Ok(s.(version := s.version + 1, refunded := s.refunded + s.operations[o].total, returned := returned,
                  ledger := ledger,
                  status := if s.refunded + s.operations[o].total >= s.total then Refunded else PartiallyRefunded,
                  operations := s.operations[o := s.operations[o].(
                    legs := [leg], finalized := true, version := s.operations[o].version + 1,
                    status := if env.creditNoteReady then Completed else TaxPending)]))
  {
    hide PostMissing;
    assert AllSucceeded([leg]);
  }

  lemma PostOne(ledger: seq<Entry>, o: nat)
    requires !Posted(ledger, o, 0)
    ensures PostMissing(ledger, o, TO_CARD) == ledger + [Entry(o, 0, 5000)]
  {
    PostAppends(ledger, o, TO_CARD);
    assert Entries(o, TO_CARD) == [Entry(o, 0, 5000)];
  }

  lemma RunFirst(s: Sale, a: Action, rest: seq<Action>, actions: seq<Action>)
    requires actions == [a] + rest
    ensures Run(s, actions) == Run(Step(s, a), rest)
  {
    hide Step;
    assert actions[1..] == rest;
  }

  // ----- First, one unit is refunded to the card, and the provider declines -----

  function Declined(): Operation {
    UnitOperation("k0", 0, FailsOnce, Leg(false, Failed, 1, 0), OpFailed, false, 2)
  }

  function AfterDecline(): Sale {
    TwoUnitSale().(version := 2, quotes := [UnitQuote(1, true)], operations := [Declined()])
  }

  lemma NothingUsedYet()
    ensures Used(TwoUnitSale(), 0) == 0
  {
  }

  lemma FirstQuote()
    ensures Step(TwoUnitSale(), QUOTE) == TwoUnitSale().(quotes := [UnitQuote(1, false)])
  {
    hide Used;
    NothingUsedYet();
    CardFirst(UsedAll(TwoUnitSale()));
    QuoteStep(TwoUnitSale());
  }

  const FIRST := Execute("k0", 0, FailsOnce, true, true, ENV)

  lemma DeclineStep()
    ensures Step(Step(TwoUnitSale(), QUOTE), FIRST) == AfterDecline()
  {
    hide Settle, ApplyExecute;
    FirstQuote();
    var leg := Leg(false, Failed, 1, 0);
    var begun := AfterDecline().(operations := [UnitOperation("k0", 0, FailsOnce, leg, OpProcessing, false, 1)]);
    ExecuteStep(TwoUnitSale().(quotes := [UnitQuote(1, false)]), "k0", 0, FailsOnce, ENV, begun);
    SettleOpen(begun, 0, leg, OpFailed);
    assert begun.operations[0 := Declined()] == [Declined()];
  }

  lemma NothingReserved()
    ensures Used(AfterDecline(), 0) == 0
  {
    SumOne(Declined(), ReservedOf(0));
  }

  /** The other unit is quoted, to the card as well: the failed operation reserves nothing. */
  function AfterSecondQuote(): Sale {
    AfterDecline().(quotes := [UnitQuote(1, true), UnitQuote(2, false)])
  }

  lemma SecondQuote()
    ensures Step(AfterDecline(), QUOTE) == AfterSecondQuote()
  {
    hide Used;
    NothingReserved();
    CardFirst(UsedAll(AfterDecline()));
    QuoteStep(AfterDecline());
    assert [UnitQuote(1, true)] + [UnitQuote(2, false)] == [UnitQuote(1, true), UnitQuote(2, false)];
  }

  /** The second quote is executed and paid, whatever the first operation is doing. */
  function Paid(): Operation {
    UnitOperation("k1", 1, Succeeds, Leg(false, Succeeded, 1, 0), Completed, true, 2)
  }

  function AfterPaid(s: Sale): Sale {
    s.(version := 4, status := PartiallyRefunded, refunded := 5000, returned := [10000],
       quotes := [UnitQuote(1, true), UnitQuote(2, true)],
       operations := s.operations + [Paid()], ledger := [Entry(1, 0, 5000)])
  }

  lemma SecondExecute(s: Sale)
    requires |s.operations| == 1 && s.operations[0].key == "k0"
    requires s == AfterSecondQuote().(operations := s.operations, events := s.events)
    ensures Step(s, Execute("k1", 1, Succeeds, true, true, ENV)) == AfterPaid(s)
  {
    hide Settle, ApplyExecute, PostMissing;
    var leg := Leg(false, Succeeded, 1, 0);
    var begun := s.(version := 3, quotes := [UnitQuote(1, true), UnitQuote(2, true)],
                    operations := s.operations + [UnitOperation("k1", 1, Succeeds, leg, OpProcessing, false, 1)]);
    assert "k0"[1] != "k1"[1];
    ExecuteStep(s, "k1", 1, Succeeds, ENV, begun);
    PostOne([], 1);
    SettlePaid(begun, 1, leg, [Entry(1, 0, 5000)], [10000], ENV);
    assert begun.operations[1 := Paid()] == s.operations + [Paid()];
  }

  /** Then the first operation pays after all: the sale allows it, and the card is paid back a second time. */
  lemma PaidTwice(s: Sale, leg: Leg)
    requires |s.operations| == 2 && s.operations[0].shares == TO_CARD && s.operations[0].quantities == [10000]
    requires s.operations[0].total == 5000 && !s.operations[0].finalized && leg.status == Succeeded
    requires s.total == 10000 && s.sold == [20000] && s.refunded == 5000 && s.returned == [10000]
    requires s.status == PartiallyRefunded && s.ledger == [Entry(1, 0, 5000)]
    ensures var r := Settle(s, 0, [leg], ENV);
            r.Ok? && r.value.refunded == r.value.total && LedgerOf(r.value.ledger, 0) == 2 * CARD.amount
  {
    hide PostMissing;
    PostOne(s.ledger, 0);
    SettlePaid(s, 0, leg, s.ledger + [Entry(0, 0, 5000)], [20000], ENV);
    SumAppend(s.ledger, Entry(0, 0, 5000), PostedOf(0));
    SumOne(Entry(1, 0, 5000), PostedOf(0));
  }

  // ----- Paying one payment back twice -----

  const SECOND := Execute("k1", 1, Succeeds, true, true, ENV)
  const AGAIN := Operate(Retry, 0, 2, ENV)

  lemma RetryStep(s: Sale)
    requires s == AfterPaid(AfterSecondQuote())
    ensures Apply(s, AGAIN) == Settle(s, 0, [Leg(false, Succeeded, 2, 0)], ENV)
  {
    hide Settle;
    var legs := Declined().legs;
    assert legs[0].status == Failed && Retryable(legs[0]) && !Has(legs, Unknown) && !Has(legs, Succeeded);
    assert TaskLegs(Declined(), Retry, true).value == [Leg(false, Succeeded, 2, 0)];
  }

  lemma RunNothing(s: Sale)
    ensures Run(s, []) == s
  {
  }

  /** Retrying the declined refund: the sale's totals hold, and yet the card's 50.00 are paid back twice. */
  lemma RetryCanOverRefund()
    ensures var after := Run(TwoUnitSale(), [QUOTE, FIRST, QUOTE, SECOND, AGAIN]);
            after.refunded == after.total && LedgerOf(after.ledger, 0) == 2 * CARD.amount
  {
    hide Apply, Settle, LedgerOf, Run;
    DeclineStep();
    SecondQuote();
    SecondExecute(AfterSecondQuote());
    var s := AfterPaid(AfterSecondQuote());
    RetryStep(s);
    PaidTwice(s, Leg(false, Succeeded, 2, 0));
    RunFirst(TwoUnitSale(), QUOTE, [FIRST, QUOTE, SECOND, AGAIN], [QUOTE, FIRST, QUOTE, SECOND, AGAIN]);
    RunFirst(Step(TwoUnitSale(), QUOTE), FIRST, [QUOTE, SECOND, AGAIN], [FIRST, QUOTE, SECOND, AGAIN]);
    RunFirst(AfterDecline(), QUOTE, [SECOND, AGAIN], [QUOTE, SECOND, AGAIN]);
    RunFirst(AfterSecondQuote(), SECOND, [AGAIN], [SECOND, AGAIN]);
    RunFirst(s, AGAIN, [], [AGAIN]);
    RunNothing(Step(s, AGAIN));
  }

  const REVIVE := Deliver(Report("e1", 1, Processing), true, ENV)
  const CONFIRM := Deliver(Report("e2", 2, Succeeded), true, ENV)

  /** The declined refund is reported as under way again. */
  function Revived(): Sale {
    AfterSecondQuote().(
      operations := [UnitOperation("k0", 0, FailsOnce, Leg(false, Processing, 1, 1), OpProcessing, false, 3)],
      events := [Report("e1", 1, Processing)])
  }

  lemma ReviveStep()
    ensures Step(AfterSecondQuote(), REVIVE) == Revived()
  {
    hide Settle;
    var s, e := AfterSecondQuote(), Report("e1", 1, Processing);
    DeliverStep(s, e, Leg(false, Failed, 1, 0));
    SettleOpen(Remember(s, e), 0, Leg(false, Processing, 1, 1), OpProcessing);
  }

  lemma ConfirmStep(s: Sale)
    requires s == AfterPaid(Revived())
    ensures Apply(s, CONFIRM) == Settle(Remember(s, Report("e2", 2, Succeeded)), 0, [Leg(false, Succeeded, 1, 2)], ENV)
  {
    hide Settle;
    assert "e1"[1] != "e2"[1];
    assert Stored([Report("e1", 1, Processing)], "e2").None?;
    DeliverStep(s, Report("e2", 2, Succeeded), Leg(false, Processing, 1, 1));
  }

  /**
   The same by webhooks alone, with room when the failed operation comes back: the quote that was open
   then is executed afterwards, and both operations pay.
   */
  lemma WebhookCanOverRefund()
    ensures var after := Run(TwoUnitSale(), [QUOTE, FIRST, QUOTE, REVIVE, SECOND, CONFIRM]);
            after.refunded == after.total && LedgerOf(after.ledger, 0) == 2 * CARD.amount
  {
    hide Apply, Settle, LedgerOf, Run;
    DeclineStep();
    SecondQuote();
    ReviveStep();
    SecondExecute(Revived());
    var s := AfterPaid(Revived());
    ConfirmStep(s);
    PaidTwice(Remember(s, Report("e2", 2, Succeeded)), Leg(false, Succeeded, 1, 2));
    RunFirst(TwoUnitSale(), QUOTE, [FIRST, QUOTE, REVIVE, SECOND, CONFIRM],
        [QUOTE, FIRST, QUOTE, REVIVE, SECOND, CONFIRM]);
    RunFirst(Step(TwoUnitSale(), QUOTE), FIRST, [QUOTE, REVIVE, SECOND, CONFIRM],
        [FIRST, QUOTE, REVIVE, SECOND, CONFIRM]);
    RunFirst(AfterDecline(), QUOTE, [REVIVE, SECOND, CONFIRM], [QUOTE, REVIVE, SECOND, CONFIRM]);
    RunFirst(AfterSecondQuote(), REVIVE, [SECOND, CONFIRM], [REVIVE, SECOND, CONFIRM]);
    RunFirst(Revived(), SECOND, [CONFIRM], [SECOND, CONFIRM]);
    RunFirst(s, CONFIRM, [], [CONFIRM]);
    RunNothing(Step(s, CONFIRM));
  }

  // ----- Leaving the final state -----

  const PAY := Execute("k0", 0, Succeeds, true, true, ENV)
  const DENY := Deliver(Report("e1", 1, Failed), true, ENV)

  function Completed0(): Sale {
    TwoUnitSale().(
      version := 3, status := PartiallyRefunded, refunded := 5000, returned := [10000], quotes := [UnitQuote(1, true)],
      operations := [UnitOperation("k0", 0, Succeeds, Leg(false, Succeeded, 1, 0), Completed, true, 2)],
      ledger := [Entry(0, 0, 5000)])
  }

  lemma PayStep(s: Sale)
    requires s == TwoUnitSale().(quotes := [UnitQuote(1, false)])
    ensures Step(s, PAY) == Completed0()
  {
    hide Settle, ApplyExecute, PostMissing;
    var leg := Leg(false, Succeeded, 1, 0);
    var begun := s.(version := 2, quotes := [UnitQuote(1, true)],
                    operations := [UnitOperation("k0", 0, Succeeds, leg, OpProcessing, false, 1)]);
    ExecuteStep(s, "k0", 0, Succeeds, ENV, begun);
    PostOne([], 0);
    assert AddQuantities([0], [10000]) == [10000];
    SettlePaid(begun, 0, leg, [Entry(0, 0, 5000)], [10000], ENV);
    assert begun.operations[0 := Completed0().operations[0]] == Completed0().operations;
  }

  /** A completed refund is reported as failed: it shows as failed from then on, with its money posted. */
  lemma CompletedCanBeContradicted()
    ensures var completed, after := Run(TwoUnitSale(), [QUOTE, PAY]), Run(TwoUnitSale(), [QUOTE, PAY, DENY]);
            && |completed.operations| == |after.operations| == 1
            && completed.operations[0].status == Completed
            && after.operations[0].status == OpFailed && after.operations[0].finalized
            && after.ledger == completed.ledger == [Entry(0, 0, 5000)]
  {
    hide Run, Settle;
    FirstQuote();
    PayStep(Step(TwoUnitSale(), QUOTE));
    var s, e := Completed0(), Report("e1", 1, Failed);
    DeliverStep(s, e, Leg(false, Succeeded, 1, 0));
    SettleOpen(Remember(s, e), 0, Leg(false, Failed, 1, 1), OpFailed);
    RunFirst(TwoUnitSale(), QUOTE, [PAY], [QUOTE, PAY]);
    RunFirst(Step(TwoUnitSale(), QUOTE), PAY, [], [PAY]);
    RunFirst(TwoUnitSale(), QUOTE, [PAY, DENY], [QUOTE, PAY, DENY]);
    RunFirst(Step(TwoUnitSale(), QUOTE), PAY, [DENY], [PAY, DENY]);
    RunFirst(s, DENY, [], [DENY]);
    RunNothing(s);
    RunNothing(Step(s, DENY));
  }

  // ----- Nobody can finish it -----

  const TO_BOTH: seq<Share> := [Share(0, 5000), Share(1, 5000)]
  const QUOTE_ALL := CreateQuote([20000], 10000)
  const REPORT := Deliver(Report("e1", 1, Succeeded), true, ENV)

  /** The same sale, paid with two cards. */
  function TwoCardSale(): Sale {
    FreshSale(10000, [20000], [CARD, CARD])
  }

  function BothOperation(first: Leg, status: OperationStatus, version: nat): Operation {
    Operation("k0", 0, [20000], 10000, TO_BOTH, FailsOnce, [first, Leg(false, Failed, 1, 0)], status, false, version)
  }

  function AfterBothDeclined(): Sale {
    TwoCardSale().(version := 2, quotes := [Quote(1, [20000], 10000, TO_BOTH, true)],
                   operations := [BothOperation(Leg(false, Failed, 1, 0), OpFailed, 2)])
  }

  function AfterPartlyPaid(): Sale {
    AfterBothDeclined().(operations := [BothOperation(Leg(false, Succeeded, 1, 1), NeedsReconciliation, 3)],
                         events := [Report("e1", 1, Succeeded)])
  }

  lemma BothShares(used: seq<nat>)
    requires used == [0, 0]
    ensures Allocate([CARD, CARD], used, 0, 10000) == Ok(TO_BOTH)
  {
    assert Allocate([CARD, CARD], used, 2, 0) == Ok([]);
    assert [Share(1, 5000)] + [] == [Share(1, 5000)];
    assert Allocate([CARD, CARD], used, 1, 5000) == Ok([Share(1, 5000)]);
    assert [Share(0, 5000)] + [Share(1, 5000)] == TO_BOTH;
  }

  lemma QuoteAllStep()
    ensures Step(TwoCardSale(), QUOTE_ALL) == TwoCardSale().(quotes := [Quote(1, [20000], 10000, TO_BOTH, false)])
  {
    hide Allocate;
    BothShares(UsedAll(TwoCardSale()));
    assert QUOTE_ALL.quantities[0] != 0;
  }

  lemma BothDeclined(s: Sale)
    requires s == TwoCardSale().(quotes := [Quote(1, [20000], 10000, TO_BOTH, false)])
    ensures Step(s, FIRST) == AfterBothDeclined()
  {
    var leg := Leg(false, Failed, 1, 0);
    assert StartLegs(s.payments, TO_BOTH, FailsOnce) == [leg, leg];
    assert Begin(s, "k0", 0, FailsOnce) == AfterBothDeclined().(operations := [BothOperation(leg, OpProcessing, 1)]);
    assert [leg, leg][0].status == Failed;
  }

  lemma PartlyPaid()
    ensures Step(AfterBothDeclined(), REPORT) == AfterPartlyPaid()
  {
    var failed, paid := Leg(false, Failed, 1, 0), Leg(false, Succeeded, 1, 1);
    assert [failed, failed][0 := paid] == [paid, failed];
    assert [paid, failed][0].status == Succeeded && [paid, failed][1].status == Failed;
  }

  /** With one card paid back and the other declined, nothing an operator can do finishes the refund. */
  lemma PartlyPaidIsStuck()
    ensures var s := Run(TwoCardSale(), [QUOTE_ALL, FIRST, REPORT]);
            && |s.operations| == 1 && !s.operations[0].finalized && s.operations[0].status == NeedsReconciliation
            && !(exists tasks :: OperatesOn(0, tasks) && Finalizes(s, tasks, 0))
  {
    hide Run, Step;
    QuoteAllStep();
    BothDeclined(Step(TwoCardSale(), QUOTE_ALL));
    PartlyPaid();
    RunFirst(TwoCardSale(), QUOTE_ALL, [FIRST, REPORT], [QUOTE_ALL, FIRST, REPORT]);
    RunFirst(Step(TwoCardSale(), QUOTE_ALL), FIRST, [REPORT], [FIRST, REPORT]);
    RunFirst(AfterBothDeclined(), REPORT, [], [REPORT]);
    RunNothing(AfterPartlyPaid());
    var legs := AfterPartlyPaid().operations[0].legs;
    assert legs[0].status == Succeeded && legs[1].status == Failed;
    assert !CanFinish(AfterPartlyPaid(), 0);
    FinishedByTasksExactly(10000, [20000], [CARD, CARD], [QUOTE_ALL, FIRST, REPORT], 0);
  }

  // ----- A signed report is lost -----

  const UNSIGNED := Deliver(Report("e1", 1, Succeeded), false, ENV)

  /** The provider has paid after all, but its signed report comes after an unsigned one: the refund stays failed. */
  lemma SignedReportCanBeLost()
    ensures Run(TwoUnitSale(), [QUOTE, FIRST, UNSIGNED, REPORT]).operations == [Declined()]
    ensures Run(TwoUnitSale(), [QUOTE, FIRST, REPORT]).operations != [Declined()]
  {
    hide Run, Step;
    var s, e := AfterDecline(), Report("e1", 1, Succeeded);
    DeclineStep();
    SignedReportLost(s, e, ENV);
    ReportArrives();
    RunFirst(TwoUnitSale(), QUOTE, [FIRST, UNSIGNED, REPORT], [QUOTE, FIRST, UNSIGNED, REPORT]);
    RunFirst(Step(TwoUnitSale(), QUOTE), FIRST, [UNSIGNED, REPORT], [FIRST, UNSIGNED, REPORT]);
    RunFirst(TwoUnitSale(), QUOTE, [FIRST, REPORT], [QUOTE, FIRST, REPORT]);
    RunFirst(Step(TwoUnitSale(), QUOTE), FIRST, [REPORT], [FIRST, REPORT]);
    RunFirst(s, REPORT, [], [REPORT]);
    RunNothing(Step(s, REPORT));
  }

  /** Without the unsigned one, the report is heard. */
  lemma ReportArrives()
    ensures Step(AfterDecline(), REPORT).operations != [Declined()]
  {
    hide PostMissing, Settle;
    var s, e := Remember(AfterDecline(), Report("e1", 1, Succeeded)), Report("e1", 1, Succeeded);
    var leg := Leg(false, Succeeded, 1, 1);
    DeliverStep(AfterDecline(), e, Leg(false, Failed, 1, 0));
    PostOne([], 0);
    assert AddQuantities([0], [10000]) == [10000];
    SettlePaid(s, 0, leg, [Entry(0, 0, 5000)], [10000], ENV);
  }

  // ----- A quote is refused although the payment has the money -----

  const WHOLE := Payment(10000, false, true)
  const NO_TAX := Environment(true, true, false)
  const PAY_UNTAXED := Execute("k0", 0, Succeeds, true, true, NO_TAX)

  /** The same sale, paid with one card. */
  function OneCardSale(): Sale {
    FreshSale(10000, [20000], [WHOLE])
  }

  /** One unit is refunded; its credit note is settled or not. */
  function OneUnitRefunded(status: OperationStatus, version: nat): Sale {
    OneCardSale().(
      version := 3, status := PartiallyRefunded, refunded := 5000, returned := [10000], quotes := [UnitQuote(1, true)],
      operations := [UnitOperation("k0", 0, Succeeds, Leg(false, Succeeded, 1, 0), status, true, version)],
      ledger := [Entry(0, 0, 5000)])
  }

  lemma WholeShare(used: seq<nat>)
    requires |used| == 1
    ensures used[0] <= 5000 ==> Allocate([WHOLE], used, 0, 5000) == Ok(TO_CARD)
    ensures used[0] >= 10000 ==> Allocate([WHOLE], used, 0, 5000) == Err(OverRefund)
  {
    assert Allocate([WHOLE], used, 1, 0) == Ok([]);
    assert Allocate([WHOLE], used, 1, 5000) == Err(OverRefund);
    assert TO_CARD + [] == TO_CARD;
  }

  lemma WholeUsed(status: OperationStatus, version: nat)
    ensures Used(OneUnitRefunded(status, version), 0) == if Reserving(status) then 10000 else 5000
  {
    var s := OneUnitRefunded(status, version);
    SumOne(s.operations[0], ReservedOf(0));
    SumOne(Entry(0, 0, 5000), PostedOf(0));
    SumOne(Share(0, 5000), PaidTo(0));
  }

  lemma UntaxedStep(s: Sale)
    requires s == OneCardSale().(quotes := [UnitQuote(1, false)])
    ensures Step(s, PAY_UNTAXED) == OneUnitRefunded(TaxPending, 2)
  {
    hide Settle, ApplyExecute, PostMissing;
    var leg := Leg(false, Succeeded, 1, 0);
    var begun := s.(version := 2, quotes := [UnitQuote(1, true)],
                    operations := [UnitOperation("k0", 0, Succeeds, leg, OpProcessing, false, 1)]);
    ExecuteStep(s, "k0", 0, Succeeds, NO_TAX, begun);
    PostOne([], 0);
    assert AddQuantities([0], [10000]) == [10000];
    SettlePaid(begun, 0, leg, [Entry(0, 0, 5000)], [10000], NO_TAX);
    var after := OneUnitRefunded(TaxPending, 2).operations;
    assert begun.operations[0 := after[0]] == after;
  }

  lemma NothingOfWholeUsed()
    ensures Used(OneCardSale(), 0) == 0
  {
  }

  lemma FirstWholeQuote()
    ensures Step(OneCardSale(), QUOTE) == OneCardSale().(quotes := [UnitQuote(1, false)])
  {
    hide Allocate, Used;
    NothingOfWholeUsed();
    WholeShare(UsedAll(OneCardSale()));
    QuoteStep(OneCardSale());
  }

  lemma SecondWholeQuote(status: OperationStatus, version: nat)
    ensures var outcome := Apply(OneUnitRefunded(status, version), QUOTE);
            if Reserving(status) then outcome == Err(OverRefund) else outcome.Ok?
  {
    hide Used, Allocate;
    var s := OneUnitRefunded(status, version);
    WholeUsed(status, version);
    WholeShare(UsedAll(s));
    assert QUOTE.quantities[0] != 0;
    if !Reserving(status) { QuoteStep(s); }
  }

  /**
   While the credit note of the first unit is pending, the second one cannot be quoted: the first is counted
   twice against the card, which still has the money. Once the tax retry succeeds, it can.
   */
  lemma PendingTaxBlocksQuote()
    ensures var s := Run(OneCardSale(), [QUOTE, PAY_UNTAXED]);
            && LedgerOf(s.ledger, 0) + QUOTE.total <= WHOLE.amount && s.refunded + QUOTE.total <= s.total
            && Apply(s, QUOTE) == Err(OverRefund)
            && Apply(Step(s, RetryTax(0, 2, ENV)), QUOTE).Ok?
  {
    hide Run, Apply;
    FirstWholeQuote();
    UntaxedStep(Step(OneCardSale(), QUOTE));
    var s := OneUnitRefunded(TaxPending, 2);
    RunFirst(OneCardSale(), QUOTE, [PAY_UNTAXED], [QUOTE, PAY_UNTAXED]);
    RunFirst(Step(OneCardSale(), QUOTE), PAY_UNTAXED, [], [PAY_UNTAXED]);
    RunNothing(s);
    SumOne(Entry(0, 0, 5000), PostedOf(0));
    SecondWholeQuote(TaxPending, 2);
    TaxSettled();
    SecondWholeQuote(Completed, 3);
  }

  lemma TaxSettled()
    ensures Step(OneUnitRefunded(TaxPending, 2), RetryTax(0, 2, ENV)) == OneUnitRefunded(Completed, 3)
  {
    var s := OneUnitRefunded(TaxPending, 2);
    assert s.operations[0 := OneUnitRefunded(Completed, 3).operations[0]] == OneUnitRefunded(Completed, 3).operations;
  }
}
