/**
 The refund protocol of one sale: quotes priced against what is still refundable, operations that pay
 their legs back in cash or through a provider, and the ledger that is posted once all legs succeeded.

 Money is counted in satang and quantities in ten-thousandths of a unit, the precision of the columns.
 */
module RefundProtocol {
  import opened Wrappers
  import opened Sums

  datatype LegStatus = Requested | Processing | CashDue | Succeeded | Failed | Unknown

  datatype OperationStatus =
    OpProcessing | OpCashDue | OpFailed | OpUnknown | NeedsReconciliation | TaxPending | Completed

  datatype Scenario = Succeeds | FailsOnce | ProcessingThenSucceeds | UnknownThenSucceeds | UnknownForever

  /** A payment of the sale; `linked` says a provider payment is captured or settled and has its reference. */
  datatype Payment = Payment(amount: nat, cash: bool, linked: bool)

  /** How much of a refund goes back to which payment. */
  datatype Share = Share(payment: nat, amount: nat)

  datatype Leg = Leg(cash: bool, status: LegStatus, attempts: nat, sequence: nat)

  datatype Quote = Quote(orderVersion: nat, quantities: seq<nat>, total: nat, shares: seq<Share>, consumed: bool)

  /** `key` and `quote` are those of the request that began it. */
  datatype Operation = Operation(
    key: string, quote: nat, quantities: seq<nat>, total: nat, shares: seq<Share>, scenario: Scenario,
    legs: seq<Leg>, status: OperationStatus, finalized: bool, version: nat)

  /** A negative payment row: what an operation paid back of a payment. */
  datatype Entry = Entry(operation: nat, payment: nat, amount: nat)

  /** A provider event: its id, the leg it reports on, and what it reports. */
  datatype Event = Event(id: string, operation: nat, leg: nat, sequence: nat, report: LegStatus, detail: string)

  datatype SaleStatus = Sold | PartiallyRefunded | Refunded

  datatype Sale = Sale(
    total: nat, sold: seq<nat>, payments: seq<Payment>,
    version: nat, status: SaleStatus, refunded: nat, returned: seq<nat>,
    quotes: seq<Quote>, operations: seq<Operation>, ledger: seq<Entry>, events: seq<Event>)

  /** What an action finds outside the sale. */
  datatype Environment = Environment(shiftOpen: bool, sandbox: bool, creditNoteReady: bool)

  datatype RefundError =
    | DuplicateRequest | NotRefundable | ItemsInvalid | OverRefund | PaymentMissing | ProviderLinkUnknown
    | QuoteNotFound | StaleQuote | VersionConflict | MakerCheckerRequired | ProviderDisabled
    | ShiftClosed | OperationNotFound | CashNotDue | ProviderNotSucceeded
    | InquiryNotAvailable | InquiryRequired | RetryNotSafe | TaxRetryNotAvailable | InvalidReport
    | EventConflict

  /** What an operator can do with the legs of an operation. */
  datatype Task = ConfirmCash | Inquire | Retry

  datatype Action =
    | CreateQuote(quantities: seq<nat>, total: nat)
    | Execute(key: string, quote: nat, scenario: Scenario, approved: bool, unexpired: bool, env: Environment)
    | Operate(task: Task, operation: nat, expected: nat, env: Environment)
    | RetryTax(operation: nat, expected: nat, env: Environment)
    | Deliver(event: Event, signed: bool, env: Environment)

  // ----- Allocation of a refund to payments -----

  /** How much of a payment is still there, given what is used of it. */
  function Available(p: Payment, used: nat): nat {
    if used <= p.amount then p.amount - used else 0
  }

  function Min(a: nat, b: nat): nat {
    if a <= b then a else b
  }

  /** Pay `remaining` back out of the payments from the `k`-th on, in their order. */
  function Allocate(payments: seq<Payment>, used: seq<nat>, k: nat, remaining: nat): Result<seq<Share>, RefundError>
    requires |used| == |payments| && k <= |payments|
    decreases |payments| - k
  {
    if remaining == 0 then Ok([])
    else if k == |payments| then Err(OverRefund)
    else
      var amount := Min(Available(payments[k], used[k]), remaining);
      if amount == 0 then Allocate(payments, used, k + 1, remaining)
      else if !payments[k].cash && !payments[k].linked then Err(ProviderLinkUnknown)
      else
        match Allocate(payments, used, k + 1, remaining - amount)
        case Ok(shares) => Ok([Share(k, amount)] + shares)
        case Err(e) => Err(e)
  }

  function PaidTo(p: nat): Share -> nat {
    (share: Share) => if share.payment == p then share.amount else 0
  }

  /** What the shares give back to payment `p`. */
  function ShareOf(shares: seq<Share>, p: nat): nat {
    Sum(shares, PaidTo(p))
  }

  function ShareTotal(shares: seq<Share>): nat {
    Sum(shares, (share: Share) => share.amount)
  }

  /** Positive shares of distinct payments, in the order of the payments. */
  predicate Ordered(shares: seq<Share>, from: nat, count: nat) {
    && (forall i | 0 <= i < |shares| :: from <= shares[i].payment < count && shares[i].amount > 0)
    && (forall i, j | 0 <= i < j < |shares| :: shares[i].payment < shares[j].payment)
  }

  function StillThere(payments: seq<Payment>, used: seq<nat>, k: nat): nat
    requires |used| == |payments| && k <= |payments|
    decreases |payments| - k
  {
    if k == |payments| then 0 else Available(payments[k], used[k]) + StillThere(payments, used, k + 1)
  }

  lemma ShareOfCons(share: Share, shares: seq<Share>, p: nat)
    ensures ShareOf([share] + shares, p) == PaidTo(p)(share) + ShareOf(shares, p)
    ensures ShareTotal([share] + shares) == share.amount + ShareTotal(shares)
  {
    var amountOf := (s: Share) => s.amount;
    SumConcat([share], shares, PaidTo(p));
    SumOne(share, PaidTo(p));
    SumConcat([share], shares, amountOf);
    SumOne(share, amountOf);
  }

  /** An allocation is exact, in positive shares of distinct payments. */
  lemma {:induction false} AllocationExact(payments: seq<Payment>, used: seq<nat>, k: nat, remaining: nat)
    requires |used| == |payments| && k <= |payments|
    requires Allocate(payments, used, k, remaining).Ok?
    ensures var shares := Allocate(payments, used, k, remaining).value;
            ShareTotal(shares) == remaining && Ordered(shares, k, |payments|)
    decreases |payments| - k
  {
    if remaining > 0 {
      var amount := Min(Available(payments[k], used[k]), remaining);
      AllocationExact(payments, used, k + 1, remaining - amount);
      if amount > 0 {
        ShareOfCons(Share(k, amount), Allocate(payments, used, k + 1, remaining - amount).value, 0);
      }
    }
  }

  /** It takes no more of a payment than is there, and empties each payment before the next one. */
  lemma {:induction false} AllocationSound(payments: seq<Payment>, used: seq<nat>, k: nat, remaining: nat, p: nat)
    requires |used| == |payments| && k <= |payments|
    requires Allocate(payments, used, k, remaining).Ok?
    ensures var shares := Allocate(payments, used, k, remaining).value;
            && (k <= p < |payments| ==> ShareOf(shares, p) <= Available(payments[p], used[p]))
            && (p < k || |payments| <= p ==> ShareOf(shares, p) == 0)
            && (k <= p && shares != [] && p < shares[|shares| - 1].payment ==>
                  p < |payments| && ShareOf(shares, p) == Available(payments[p], used[p]))
    decreases |payments| - k
  {
    if remaining > 0 {
      var amount := Min(Available(payments[k], used[k]), remaining);
      AllocationSound(payments, used, k + 1, remaining - amount, p);
      AllocationExact(payments, used, k + 1, remaining - amount);
      if amount > 0 {
        ShareOfCons(Share(k, amount), Allocate(payments, used, k + 1, remaining - amount).value, p);
      }
    }
  }

  /** With every payment usable, a refund can be allocated exactly when that much is still there. */
  lemma {:induction false} AllocationComplete(payments: seq<Payment>, used: seq<nat>, k: nat, remaining: nat)
    requires |used| == |payments| && k <= |payments|
    requires forall p | k <= p < |payments| :: payments[p].cash || payments[p].linked
    ensures Allocate(payments, used, k, remaining).Ok? <==> remaining <= StillThere(payments, used, k)
    decreases |payments| - k
  {
    if remaining > 0 && k < |payments| {
      var amount := Min(Available(payments[k], used[k]), remaining);
      AllocationComplete(payments, used, k + 1, remaining - amount);
    }
  }

  /** What is there in the payments from the `k`-th up to the `u`-th. */
  function Between(payments: seq<Payment>, used: seq<nat>, k: nat, u: nat): nat
    requires |used| == |payments| && k <= u <= |payments|
    decreases u - k
  {
    if k == u then 0
    else (if used[k] < payments[k].amount then payments[k].amount - used[k] else 0) + Between(payments, used, k + 1, u)
  }

  /** Something is left of the payment, but it is neither cash nor linked to its provider. */
  predicate Blocked(payments: seq<Payment>, used: seq<nat>, u: nat)
    requires |used| == |payments| && u < |payments|
  {
    used[u] < payments[u].amount && !payments[u].cash && !payments[u].linked
  }

  /** The allocation gets as far as the `u`-th payment, and that is blocked. */
  predicate Reaches(payments: seq<Payment>, used: seq<nat>, k: nat, u: nat, remaining: nat)
    requires |used| == |payments| && k <= u < |payments|
  {
    Blocked(payments, used, u) && Between(payments, used, k, u) < remaining
  }

  predicate ReachesUnlinked(payments: seq<Payment>, used: seq<nat>, k: nat, remaining: nat)
    requires |used| == |payments| && k <= |payments|
  {
    exists u | k <= u < |payments| :: Reaches(payments, used, k, u, remaining)
  }

  /**
   It fails exactly when the payments before an unlinked one do not suffice, or all together do not; otherwise it
   goes to cash and linked payments only.
   */
  lemma {:induction false} AllocationExactly(payments: seq<Payment>, used: seq<nat>, k: nat, remaining: nat)
    requires |used| == |payments| && k <= |payments|
    ensures var r := Allocate(payments, used, k, remaining);
            && (r == Err(ProviderLinkUnknown) <==> ReachesUnlinked(payments, used, k, remaining))
            && (r == Err(OverRefund) <==>
                  !ReachesUnlinked(payments, used, k, remaining) && Between(payments, used, k, |payments|) < remaining)
            && (r.Ok? || r.error in {ProviderLinkUnknown, OverRefund})
            && (r.Ok? ==> forall i | 0 <= i < |r.value| ::
                  var p := r.value[i].payment; p < |payments| && (payments[p].cash || payments[p].linked))
    decreases |payments| - k
  {
    hide Between, ReachesUnlinked;
    BetweenNothing(payments, used, k);
    if k < |payments| {
      ReachesStep(payments, used, k, remaining);
      if remaining > 0 {
        AllocationExactly(payments, used, k + 1, remaining - Min(Available(payments[k], used[k]), remaining));
      }
    }
  }

  lemma BetweenNothing(payments: seq<Payment>, used: seq<nat>, k: nat)
    requires |used| == |payments| && k <= |payments|
    ensures Between(payments, used, k, k) == 0
    ensures !ReachesUnlinked(payments, used, k, 0) && !ReachesUnlinked(payments, used, |payments|, 0)
    ensures k == |payments| ==> forall remaining: nat :: !ReachesUnlinked(payments, used, k, remaining)
  {
  }

  lemma ReachesStep(payments: seq<Payment>, used: seq<nat>, k: nat, remaining: nat)
    requires |used| == |payments| && k < |payments|
    ensures var available := Available(payments[k], used[k]);
            && (ReachesUnlinked(payments, used, k, remaining) <==>
                  || (remaining > 0 && available > 0 && !payments[k].cash && !payments[k].linked)
                  || (available < remaining && ReachesUnlinked(payments, used, k + 1, remaining - available)))
            && Between(payments, used, k, |payments|) == available + Between(payments, used, k + 1, |payments|)
  {
    var available := Available(payments[k], used[k]);
    if ReachesUnlinked(payments, used, k, remaining) {
      var u :| k <= u < |payments| && Reaches(payments, used, k, u, remaining);
      if k < u { assert Reaches(payments, used, k + 1, u, remaining - available); }
    }
    if available < remaining && ReachesUnlinked(payments, used, k + 1, remaining - available) {
      var u :| k + 1 <= u < |payments| && Reaches(payments, used, k + 1, u, remaining - available);
      assert Reaches(payments, used, k, u, remaining);
    }
    if remaining > 0 && available > 0 && !payments[k].cash && !payments[k].linked {
      assert Reaches(payments, used, k, k, remaining);
    }
  }

  /** The allocation loop of `create_quote`. */
  method AllocateShares(payments: seq<Payment>, used: seq<nat>, total: nat) returns (r: Result<seq<Share>, RefundError>)
    requires |used| == |payments| && total > 0
    ensures r == Allocate(payments, used, 0, total)
  {
    var remaining := total;
    var allocations: seq<Share> := [];
    var k := 0;
    assert forall rest: seq<Share> :: allocations + rest == rest;
    while k < |payments| && remaining > 0
      invariant k <= |payments|
      invariant Allocate(payments, used, 0, total) ==
                match Allocate(payments, used, k, remaining)
                case Ok(rest) => Ok(allocations + rest)
                case Err(e) => Err(e)
    {
      var available := Available(payments[k], used[k]);
      var amount := if available <= remaining then available else remaining;
      if amount > 0 {
        if !payments[k].cash && !payments[k].linked {
          return Err(ProviderLinkUnknown);
        }
        assert forall rest: seq<Share> ::
            (allocations + [Share(k, amount)]) + rest == allocations + ([Share(k, amount)] + rest);
        allocations := allocations + [Share(k, amount)];
        remaining := remaining - amount;
      }
      k := k + 1;
    }
    if remaining > 0 { return Err(OverRefund); }
    assert allocations + [] == allocations;
    r := Ok(allocations);
  }

  // ----- Legs and what they make of their operation -----

  /** The deterministic sandbox provider. */
  function ProviderResult(scenario: Scenario, attempt: nat, inquiry: bool): LegStatus {
    match scenario
    case Succeeds => Succeeded
    case FailsOnce => if attempt <= 1 && !inquiry then Failed else Succeeded
    case ProcessingThenSucceeds => if inquiry then Succeeded else Processing
    case UnknownThenSucceeds => if inquiry then Succeeded else Unknown
    case UnknownForever => Unknown
  }

  function CallProvider(leg: Leg, scenario: Scenario, inquiry: bool): Leg {
    leg.(attempts := leg.attempts + 1, status := ProviderResult(scenario, leg.attempts + 1, inquiry))
  }

  function StartLeg(cash: bool, scenario: Scenario): Leg {
    if cash then Leg(true, CashDue, 0, 0) else CallProvider(Leg(false, Requested, 0, 0), scenario, false)
  }

  function StartLegs(payments: seq<Payment>, shares: seq<Share>, scenario: Scenario): (legs: seq<Leg>)
    requires forall i | 0 <= i < |shares| :: shares[i].payment < |payments|
    ensures |legs| == |shares|
  {
    seq(|shares|, i requires 0 <= i < |shares| => StartLeg(payments[shares[i].payment].cash, scenario))
  }

  predicate Has(legs: seq<Leg>, status: LegStatus) {
    exists i | 0 <= i < |legs| :: legs[i].status == status
  }

  predicate AllSucceeded(legs: seq<Leg>) {
    legs != [] && forall i | 0 <= i < |legs| :: legs[i].status == Succeeded
  }

  /** The status of an operation whose legs have not all succeeded, when it was `before`. */
  function DeriveStatus(before: OperationStatus, legs: seq<Leg>): OperationStatus {
    if Has(legs, Unknown) then if Has(legs, Succeeded) then NeedsReconciliation else OpUnknown
    else if Has(legs, Failed) then if Has(legs, Succeeded) then NeedsReconciliation else OpFailed
    else if Has(legs, Processing) || Has(legs, Requested) then OpProcessing
    else if Has(legs, CashDue) then OpCashDue
    else before
  }

  // ----- Posting -----

  predicate Posted(ledger: seq<Entry>, operation: nat, payment: nat) {
    exists e | e in ledger :: e.operation == operation && e.payment == payment
  }

  /** One ledger entry per share, unless the operation already has one for that payment. */
  function PostMissing(ledger: seq<Entry>, operation: nat, shares: seq<Share>): seq<Entry>
    decreases |shares|
  {
    if shares == [] then ledger
    else if Posted(ledger, operation, shares[0].payment) then PostMissing(ledger, operation, shares[1..])
    else PostMissing(ledger + [Entry(operation, shares[0].payment, shares[0].amount)], operation, shares[1..])
  }

  function Entries(operation: nat, shares: seq<Share>): seq<Entry> {
    seq(|shares|, i requires 0 <= i < |shares| => Entry(operation, shares[i].payment, shares[i].amount))
  }

  function AddQuantities(a: seq<nat>, b: seq<nat>): seq<nat>
    requires |a| == |b|
  {
    seq(|a|, i requires 0 <= i < |a| => a[i] + b[i])
  }

  predicate QuantitiesFit(returned: seq<nat>, quantities: seq<nat>, sold: seq<nat>) {
    && |returned| == |quantities| == |sold|
    && forall i | 0 <= i < |sold| :: returned[i] + quantities[i] <= sold[i]
  }

  /** `_finalize`: an error leaves everything as it was. */
  function Finalize(s: Sale, o: nat, legs: seq<Leg>, env: Environment): Result<Sale, RefundError>
    requires o < |s.operations|
  {
    var op := s.operations[o];
    if s.status == Refunded then Err(NotRefundable)
    else if !QuantitiesFit(s.returned, op.quantities, s.sold) then Err(OverRefund)
    else if s.refunded + op.total > s.total then Err(OverRefund)
    else if !env.shiftOpen then Err(ShiftClosed)
    else
      var refunded := s.refunded + op.total;
      Ok(s.(refunded := refunded,
            status := if refunded >= s.total then Refunded else PartiallyRefunded,
            version := s.version + 1,
            returned := AddQuantities(s.returned, op.quantities),
            ledger := PostMissing(s.ledger, o, op.shares),
            operations := s.operations[o := op.(legs := legs, finalized := true, version := op.version + 1,
                                                status := if env.creditNoteReady then Completed else TaxPending)]))
  }

  /** `_derive_and_finalize`, once the legs of operation `o` have become `legs`. */
  function Settle(s: Sale, o: nat, legs: seq<Leg>, env: Environment): Result<Sale, RefundError>
    requires o < |s.operations|
  {
    var op := s.operations[o];
    if AllSucceeded(legs) && !op.finalized then Finalize(s, o, legs, env)
    else
      var status := if AllSucceeded(legs) then op.status else DeriveStatus(op.status, legs);
      Ok(s.(operations := s.operations[o := op.(legs := legs, status := status, version := op.version + 1)]))
  }

  // ----- The actions -----

  /** In-flight operations whose shares a new quote must leave alone. */
  predicate Reserving(status: OperationStatus) {
    status in {OpProcessing, OpCashDue, OpUnknown, NeedsReconciliation, TaxPending}
  }

  function ReservedOf(p: nat): Operation -> nat {
    (op: Operation) => if Reserving(op.status) then ShareOf(op.shares, p) else 0
  }

  function PostedOf(p: nat): Entry -> nat {
    (e: Entry) => if e.payment == p then e.amount else 0
  }

  function LedgerOf(ledger: seq<Entry>, p: nat): nat {
    Sum(ledger, PostedOf(p))
  }

  /** What a quote counts as used of a payment: what was posted and what is reserved. */
  function Used(s: Sale, p: nat): nat {
    LedgerOf(s.ledger, p) + Sum(s.operations, ReservedOf(p))
  }

  function UsedAll(s: Sale): seq<nat> {
    seq(|s.payments|, p requires 0 <= p < |s.payments| => Used(s, p))
  }

  function ApplyQuote(s: Sale, quantities: seq<nat>, total: nat): Result<Sale, RefundError> {
    if s.status == Refunded then Err(NotRefundable)
    else if |quantities| != |s.sold| || (forall i | 0 <= i < |quantities| :: quantities[i] == 0) then Err(ItemsInvalid)
    else if !QuantitiesFit(s.returned, quantities, s.sold) then Err(OverRefund)
    else if total == 0 || s.refunded + total > s.total then Err(OverRefund)
    else if s.payments == [] then Err(PaymentMissing)
    else
      match Allocate(s.payments, UsedAll(s), 0, total)
      case Err(e) => Err(e)
      case Ok(shares) => Ok(s.(quotes := s.quotes + [Quote(s.version, quantities, total, shares, false)]))
  }

  predicate SharesValid(s: Sale, shares: seq<Share>) {
    forall i | 0 <= i < |shares| :: shares[i].payment < |s.payments|
  }

  function NewOperation(s: Sale, key: string, q: nat, scenario: Scenario): Operation
    requires q < |s.quotes| && SharesValid(s, s.quotes[q].shares)
  {
    var quote := s.quotes[q];
    Operation(key, q, quote.quantities, quote.total, quote.shares, scenario,
              StartLegs(s.payments, quote.shares, scenario), OpProcessing, false, 1)
  }

  /** The sale with quote `q` consumed and its operation begun. */
  function Begin(s: Sale, key: string, q: nat, scenario: Scenario): Sale
    requires q < |s.quotes| && SharesValid(s, s.quotes[q].shares)
  {
    s.(version := s.version + 1,
       quotes := s.quotes[q := s.quotes[q].(consumed := true)],
       operations := s.operations + [NewOperation(s, key, q, scenario)])
  }

  predicate NeedsProvider(s: Sale, shares: seq<Share>)
    requires SharesValid(s, shares)
  {
    exists i | 0 <= i < |shares| :: !s.payments[shares[i].payment].cash
  }

  predicate KeyUsed(s: Sale, key: string) {
    exists o | 0 <= o < |s.operations| :: s.operations[o].key == key
  }

  /** The request that the key was used for. */
  predicate RequestKnown(s: Sale, key: string, q: nat, scenario: Scenario) {
    exists o | 0 <= o < |s.operations| ::
      s.operations[o].key == key && s.operations[o].quote == q && s.operations[o].scenario == scenario
  }

  /** A request repeated under its key is answered with the operation it began. */
  function ApplyExecute(s: Sale, key: string, q: nat, scenario: Scenario, approved: bool, unexpired: bool,
                        env: Environment)
    : Result<Sale, RefundError>
  {
    if KeyUsed(s, key) then if RequestKnown(s, key, q, scenario) then Ok(s) else Err(DuplicateRequest)
    else if !approved then Err(MakerCheckerRequired)
    else if q >= |s.quotes| || !SharesValid(s, s.quotes[q].shares) then Err(QuoteNotFound)
    else if s.quotes[q].consumed || !unexpired then Err(StaleQuote)
    else if s.quotes[q].orderVersion != s.version then Err(VersionConflict)
    else if !env.sandbox && NeedsProvider(s, s.quotes[q].shares) then Err(ProviderDisabled)
    else
      var begun := Begin(s, key, q, scenario);
      Settle(begun, |s.operations|, begun.operations[|s.operations|].legs, env)
  }

  function MapLegs(legs: seq<Leg>, f: Leg -> Leg): (r: seq<Leg>)
    ensures |r| == |legs|
  {
    seq(|legs|, i requires 0 <= i < |legs| => f(legs[i]))
  }

  predicate Queryable(leg: Leg) {
    !leg.cash && leg.status in {Processing, Unknown}
  }

  predicate Retryable(leg: Leg) {
    !leg.cash && leg.status == Failed
  }

  /** What a task makes of the legs; it is refused when they are not in a state for it. */
  function TaskLegs(op: Operation, task: Task, sandbox: bool): (r: Result<seq<Leg>, RefundError>)
    ensures r.Ok? ==> |r.value| == |op.legs|
  {
    var legs := op.legs;
    match task
    case ConfirmCash =>
      if !(exists i | 0 <= i < |legs| :: legs[i].cash)
      || (exists i | 0 <= i < |legs| :: legs[i].cash && legs[i].status !in {CashDue, Succeeded}) then Err(CashNotDue)
      else if exists i | 0 <= i < |legs| :: !legs[i].cash && legs[i].status != Succeeded then Err(ProviderNotSucceeded)
      else Ok(MapLegs(legs, (leg: Leg) => if leg.cash then leg.(status := Succeeded) else leg))
    case Inquire =>
      if !(exists i | 0 <= i < |legs| :: Queryable(legs[i])) then Err(InquiryNotAvailable)
      else if !sandbox then Err(ProviderDisabled)
      else Ok(MapLegs(legs, (leg: Leg) => if Queryable(leg) then CallProvider(leg, op.scenario, true) else leg))
    case Retry =>
      if Has(legs, Unknown) then Err(InquiryRequired)
      else if !(exists i | 0 <= i < |legs| :: Retryable(legs[i])) || Has(legs, Succeeded) then Err(RetryNotSafe)
      else if !sandbox then Err(ProviderDisabled)
      else Ok(MapLegs(legs, (leg: Leg) => if Retryable(leg) then CallProvider(leg, op.scenario, false) else leg))
  }

  /** `confirm_cash`, `inquire` and `retry`, under the optimistic lock of the operation. */
  function ApplyTask(s: Sale, task: Task, o: nat, expected: nat, env: Environment): Result<Sale, RefundError> {
    if o >= |s.operations| then Err(OperationNotFound)
    else if s.operations[o].version != expected then Err(VersionConflict)
    else if task == ConfirmCash && s.operations[o].status == Completed then Ok(s)
    else
      match TaskLegs(s.operations[o], task, env.sandbox)
      case Err(e) => Err(e)
      case Ok(legs) => Settle(s, o, legs, env)
  }

  function ApplyRetryTax(s: Sale, o: nat, expected: nat, env: Environment): Result<Sale, RefundError> {
    if o >= |s.operations| then Err(OperationNotFound)
    else
      var op := s.operations[o];
      if op.version != expected then Err(VersionConflict)
      else if !op.finalized || op.status != TaxPending then Err(TaxRetryNotAvailable)
      else
        var status := if env.creditNoteReady then Completed else TaxPending;
        Ok(s.(operations := s.operations[o := op.(status := status, version := op.version + 1)]))
  }

  function ReportLegs(legs: seq<Leg>, e: Event): seq<Leg>
    requires e.leg < |legs|
  {
    legs[e.leg := legs[e.leg].(status := e.report, sequence := e.sequence)]
  }

  /** The stored event with this id. */
  function Stored(events: seq<Event>, id: string): Option<Event> {
    if events == [] then None
    else if events[|events| - 1].id == id then Some(events[|events| - 1])
    else Stored(events[..|events| - 1], id)
  }

  function Remember(s: Sale, e: Event): Sale {
    s.(events := s.events + [e])
  }

  /** What a provider may report: the schema of the webhook admits nothing else. */
  predicate Reportable(e: Event) {
    e.report !in {Requested, CashDue} && e.sequence > 0
  }

  /**
   A replayed event changes nothing, an event id used for another report is refused, and unsigned and
   out-of-order events are only remembered.
   */
  function ApplyDeliver(s: Sale, e: Event, signed: bool, env: Environment): Result<Sale, RefundError> {
    if !Reportable(e) then Err(InvalidReport)
    else if e.operation >= |s.operations| || e.leg >= |s.operations[e.operation].legs| then Err(OperationNotFound)
    else
      match Stored(s.events, e.id)
      case Some(known) => if known == e then Ok(s) else Err(EventConflict)
      case None =>
        var legs := s.operations[e.operation].legs;
        if !signed || e.sequence <= legs[e.leg].sequence then Ok(Remember(s, e))
        else Settle(Remember(s, e), e.operation, ReportLegs(legs, e), env)
  }

  function Apply(s: Sale, a: Action): Result<Sale, RefundError> {
    match a
    case CreateQuote(quantities, total) => ApplyQuote(s, quantities, total)
    case Execute(key, q, scenario, approved, unexpired, env) =>
      ApplyExecute(s, key, q, scenario, approved, unexpired, env)
    case Operate(task, o, expected, env) => ApplyTask(s, task, o, expected, env)
    case RetryTax(o, expected, env) => ApplyRetryTax(s, o, expected, env)
    case Deliver(e, signed, env) => ApplyDeliver(s, e, signed, env)
  }

  /** A failing action is rolled back. */
  function Step(s: Sale, a: Action): Sale {
    match Apply(s, a)
    case Ok(after) => after
    case Err(_) => s
  }

  function Run(s: Sale, actions: seq<Action>): Sale
    decreases |actions|
  {
    if actions == [] then s else Run(Step(s, actions[0]), actions[1..])
  }

  function FreshSale(total: nat, sold: seq<nat>, payments: seq<Payment>): Sale {
    Sale(total, sold, payments, 1, Sold, 0, seq(|sold|, i => 0), [], [], [], [])
  }
}
