/** The rows of one sale as the refund service updates them in place, against the protocol they follow. */
module RefundRows {
  import opened Wrappers
  import opened RefundProtocol
  import opened Sums

  /** `dict.get(p, 0)` */
  function Get(used: map<nat, nat>, p: nat): nat {
    if p in used then used[p] else 0
  }

  /** The legs an operation is given while an action settles it are those it already has in its row. */
  lemma SettleOwnLegs(s: Sale, o: nat, legs: seq<Leg>, env: Environment)
    requires o < |s.operations|
    ensures Settle(s.(operations := s.operations[o := s.operations[o].(legs := legs)]), o, legs, env) ==
            Settle(s, o, legs, env)
  {
    var t := s.(operations := s.operations[o := s.operations[o].(legs := legs)]);
    var r := Settle(s, o, legs, env);
    if r.Ok? { assert t.operations[o := r.value.operations[o]] == s.operations[o := r.value.operations[o]]; }
  }

  lemma LastReserved(operations: seq<Operation>, j: nat, p: nat)
    requires j < |operations|
    ensures Sum(operations[..j + 1], ReservedOf(p)) ==
            Sum(operations[..j], ReservedOf(p)) + ReservedOf(p)(operations[j])
  {
    assert operations[..j + 1] == operations[..j] + [operations[j]];
    SumAppend(operations[..j], operations[j], ReservedOf(p));
  }

  lemma LastEntry(ledger: seq<Entry>, i: nat, p: nat)
    requires i < |ledger|
    ensures LedgerOf(ledger[..i + 1], p) == LedgerOf(ledger[..i], p) + PostedOf(p)(ledger[i])
  {
    assert ledger[..i + 1] == ledger[..i] + [ledger[i]];
    SumAppend(ledger[..i], ledger[i], PostedOf(p));
  }

  lemma LastShare(shares: seq<Share>, k: nat, p: nat)
    requires k < |shares|
    ensures ShareOf(shares[..k + 1], p) == ShareOf(shares[..k], p) + PaidTo(p)(shares[k])
  {
    assert shares[..k + 1] == shares[..k] + [shares[k]];
    SumAppend(shares[..k], shares[k], PaidTo(p));
  }

  /** The leg states as a set, and what the tests on it mean. */
  lemma StatesOfLegs(legs: seq<Leg>, states: set<LegStatus>)
    requires states == set leg | leg in legs :: leg.status
    ensures forall status :: status in states <==> Has(legs, status)
    ensures states == {Succeeded} <==> AllSucceeded(legs)
  {
    forall status ensures status in states <==> Has(legs, status) {
      if Has(legs, status) {
        var i :| 0 <= i < |legs| && legs[i].status == status;
        assert legs[i] in legs;
      }
    }
    if legs != [] { assert legs[0].status in states by { assert legs[0] in legs; } }
    if states == {Succeeded} {
      forall i | 0 <= i < |legs| ensures legs[i].status == Succeeded {
        assert legs[i] in legs && legs[i].status in states;
      }
    }
  }

  lemma NothingPosted(ledger: seq<Entry>, p: nat)
    requires ledger == []
    ensures LedgerOf(ledger, p) == 0
  {
  }

  lemma NothingSummed(operations: seq<Operation>, f: Operation -> nat)
    requires operations == []
    ensures Sum(operations, f) == 0
  {
  }

  lemma NothingShared(shares: seq<Share>, p: nat)
    requires shares == []
    ensures ShareOf(shares, p) == 0
  {
  }

  /** The legs a provider task is about. */
  predicate Concerns(task: Task, leg: Leg) {
    if task == Inquire then Queryable(leg) else Retryable(leg)
  }

  /** Leg `l` of the operation after a call to the provider. */
  function Called(op: Operation, l: nat, inquiry: bool): Leg
    requires l < |op.legs|
  {
    CallProvider(op.legs[l], op.scenario, inquiry)
  }

  function InquiryOf(scenario: Scenario): Leg -> Leg {
    (leg: Leg) => if Queryable(leg) then CallProvider(leg, scenario, true) else leg
  }

  function RetryOf(scenario: Scenario): Leg -> Leg {
    (leg: Leg) => if Retryable(leg) then CallProvider(leg, scenario, false) else leg
  }

  lemma ConfirmNeedsNoProvider(op: Operation, sandbox: bool)
    ensures TaskLegs(op, ConfirmCash, sandbox) == TaskLegs(op, ConfirmCash, true)
  {
  }

  class SaleRows {
    const total: nat
    const sold: seq<nat>
    const payments: seq<Payment>
    var version: nat
    var status: SaleStatus
    var refunded: nat
    var returned: seq<nat>
    var quotes: seq<Quote>
    var operations: seq<Operation>
    var ledger: seq<Entry>
    var events: seq<Event>

    function State(): Sale
      reads this
    {
      Sale(total, sold, payments, version, status, refunded, returned, quotes, operations, ledger, events)
    }

    constructor (total: nat, sold: seq<nat>, payments: seq<Payment>)
      ensures State() == FreshSale(total, sold, payments)
    {
      this.total, this.sold, this.payments := total, sold, payments;
      version, status, refunded, returned := 1, Sold, 0, seq(|sold|, i => 0);
      quotes, operations, ledger, events := [], [], [], [];
    }

    /** The service raises in the middle of its updates; the transaction then puts every row back. */
    method Rollback(before: Sale)
      requires before.total == total && before.sold == sold && before.payments == payments
      modifies this
      ensures State() == before
    {
      version, status, refunded, returned := before.version, before.status, before.refunded, before.returned;
      quotes, operations, ledger, events := before.quotes, before.operations, before.ledger, before.events;
    }

    /** A negative payment per share, unless the operation already has one for that payment. */
    method PostLedger(o: nat, shares: seq<Share>)
      modifies this`ledger
      ensures ledger == PostMissing(old(ledger), o, shares)
    {
      var i := 0;
      while i < |shares|
        invariant i <= |shares|
        invariant PostMissing(ledger, o, shares[i..]) == PostMissing(old(ledger), o, shares)
      {
        assert shares[i..][1..] == shares[i + 1..];
        if !Posted(ledger, o, shares[i].payment) {
          ledger := ledger + [Entry(o, shares[i].payment, shares[i].amount)];
        }
        i := i + 1;
      }
    }

    method AddReturned(quantities: seq<nat>)
      requires |quantities| == |returned|
      modifies this`returned
      ensures returned == AddQuantities(old(returned), quantities)
    {
      var i := 0;
      while i < |quantities|
        invariant i <= |quantities| == |returned|
        invariant forall k | 0 <= k < i :: returned[k] == old(returned)[k] + quantities[k]
        invariant forall k | i <= k < |quantities| :: returned[k] == old(returned)[k]
      {
        returned := returned[i := returned[i] + quantities[i]];
        i := i + 1;
      }
    }

    /** `_finalize`, for an operation whose row has its legs; the shift is looked at after the sale has been updated. */
    method Finalize(o: nat, env: Environment) returns (error: Option<RefundError>)
      requires o < |operations|
      modifies this
      ensures RefundProtocol.Finalize(old(State()), o, old(operations)[o].legs, env) ==
              if error.Some? then Err(error.value) else Ok(State())
    {
      var op := operations[o];
      if status == Refunded { return Some(NotRefundable); }
      if !QuantitiesFit(returned, op.quantities, sold) { return Some(OverRefund); }
      if refunded + op.total > total { return Some(OverRefund); }
      AddReturned(op.quantities);
      refunded := refunded + op.total;
      status := if refunded >= total then Refunded else PartiallyRefunded;
      version := version + 1;
      if !env.shiftOpen { return Some(ShiftClosed); }
      PostLedger(o, op.shares);
      operations := operations[o := op.(finalized := true, version := op.version + 1,
                                        status := if env.creditNoteReady then Completed else TaxPending)];
      error := None;
    }

    method LegStates(o: nat) returns (states: set<LegStatus>)
      requires o < |operations|
      ensures states == set leg | leg in operations[o].legs :: leg.status
    {
      var legs := operations[o].legs;
      states := {};
      var i := 0;
      while i < |legs|
        invariant i <= |legs|
        invariant states == set leg | leg in legs[..i] :: leg.status
      {
        assert legs[..i + 1] == legs[..i] + [legs[i]];
        states := states + {legs[i].status};
        i := i + 1;
      }
      assert legs[..i] == legs;
    }

    /** `_derive_and_finalize`, by the set of states the legs are in. */
    method Settle(o: nat, env: Environment) returns (error: Option<RefundError>)
      requires o < |operations|
      modifies this
      ensures RefundProtocol.Settle(old(State()), o, old(operations)[o].legs, env) ==
              if error.Some? then Err(error.value) else Ok(State())
    {
      var states := LegStates(o);
      StatesOfLegs(operations[o].legs, states);
      var op := operations[o];
      if states == {Succeeded} && !op.finalized {
        error := Finalize(o, env);
        return;
      }
      var derived := op.status;
      if states == {Succeeded} {
      } else if Unknown in states {
        derived := if Succeeded in states then NeedsReconciliation else OpUnknown;
      } else if Failed in states {
        derived := if Succeeded in states then NeedsReconciliation else OpFailed;
      } else if Processing in states || Requested in states {
        derived := OpProcessing;
      } else if CashDue in states {
        derived := OpCashDue;
      }
      operations := operations[o := op.(status := derived, version := op.version + 1)];
      error := None;
    }

    /** What posted refunds and running operations use of each payment. */
    method UsedByPayment() returns (used: map<nat, nat>)
      ensures forall p: nat :: Get(used, p) == Used(State(), p)
    {
      hide LedgerOf, Sum;
      used := map[];
      var i := 0;
      forall p: nat ensures Get(used, p) == LedgerOf(ledger[..0], p) { NothingPosted(ledger[..0], p); }
      while i < |ledger|
        invariant i <= |ledger|
        invariant forall p: nat :: Get(used, p) == LedgerOf(ledger[..i], p)
      {
        var e := ledger[i];
        forall p: nat ensures LedgerOf(ledger[..i + 1], p) == LedgerOf(ledger[..i], p) + PostedOf(p)(e) {
          LastEntry(ledger, i, p);
        }
        ghost var before := used;
        used := used[e.payment := Get(used, e.payment) + e.amount];
        assert forall p: nat :: Get(used, p) == Get(before, p) + PostedOf(p)(e);
        i := i + 1;
      }
      assert ledger[..i] == ledger;
      var j := 0;
      forall p: nat ensures Sum(operations[..0], ReservedOf(p)) == 0 { NothingSummed(operations[..0], ReservedOf(p)); }
      while j < |operations|
        invariant j <= |operations|
        invariant forall p: nat :: Get(used, p) == LedgerOf(ledger, p) + Sum(operations[..j], ReservedOf(p))
      {
        forall p: nat
          ensures Sum(operations[..j + 1], ReservedOf(p)) ==
                  Sum(operations[..j], ReservedOf(p)) + ReservedOf(p)(operations[j])
        {
          LastReserved(operations, j, p);
        }
        if Reserving(operations[j].status) {
          used := AddShares(used, operations[j].shares);
        }
        j := j + 1;
      }
      assert operations[..j] == operations;
    }

    /** The legs of one operation, added to what is used. */
    method AddShares(before: map<nat, nat>, shares: seq<Share>) returns (used: map<nat, nat>)
      ensures forall p: nat :: Get(used, p) == Get(before, p) + ShareOf(shares, p)
    {
      hide ShareOf;
      used := before;
      var k := 0;
      forall p: nat ensures ShareOf(shares[..0], p) == 0 { NothingShared(shares[..0], p); }
      while k < |shares|
        invariant k <= |shares|
        invariant forall p: nat :: Get(used, p) == Get(before, p) + ShareOf(shares[..k], p)
      {
        var share := shares[k];
        forall p: nat ensures ShareOf(shares[..k + 1], p) == ShareOf(shares[..k], p) + PaidTo(p)(share) {
          LastShare(shares, k, p);
        }
        used := used[share.payment := Get(used, share.payment) + share.amount];
        k := k + 1;
      }
      assert shares[..k] == shares;
    }

    /** `create_quote`, for a total that has been priced. */
    method CreateQuote(quantities: seq<nat>, amount: nat) returns (error: Option<RefundError>)
      modifies this
      ensures ApplyQuote(old(State()), quantities, amount) == if error.Some? then Err(error.value) else Ok(State())
    {
      hide Used, Allocate;
      if status == Refunded { return Some(NotRefundable); }
      if |quantities| != |sold| || (forall i | 0 <= i < |quantities| :: quantities[i] == 0) {
        return Some(ItemsInvalid);
      }
      if !QuantitiesFit(returned, quantities, sold) { return Some(OverRefund); }
      if amount == 0 || refunded + amount > total { return Some(OverRefund); }
      if payments == [] { return Some(PaymentMissing); }
      var used := UsedByPayment();
      var usedOf := seq(|payments|, p requires 0 <= p < |payments| => Get(used, p));
      assert usedOf == UsedAll(State());
      var allocation := AllocateShares(payments, usedOf, amount);
      if allocation.Err? { return Some(allocation.error); }
      quotes := quotes + [Quote(version, quantities, amount, allocation.value, false)];
      error := None;
    }

    /** `_call_provider` on leg `l`, in its row. */
    method CallProvider(o: nat, l: nat, inquiry: bool, env: Environment) returns (error: Option<RefundError>)
      requires o < |operations| && l < |operations[o].legs|
      modifies this`operations
      ensures error == if env.sandbox then None else Some(ProviderDisabled)
      ensures var op := old(operations)[o];
              operations == if env.sandbox
                then old(operations)[o := op.(legs := op.legs[l := Called(op, l, inquiry)])]
                else old(operations)
    {
      if !env.sandbox { return Some(ProviderDisabled); }
      var op := operations[o];
      var attempt := op.legs[l].attempts + 1;
      var result := ProviderResult(op.scenario, attempt, inquiry);
      operations := operations[o := op.(legs := op.legs[l := op.legs[l].(attempts := attempt, status := result)])];
      error := None;
    }

    /** The legs of a new operation: cash is due, and the provider is called for each other one as it is added. */
    method StartLegs(o: nat, shares: seq<Share>, env: Environment) returns (error: Option<RefundError>)
      requires o < |operations| && operations[o].legs == []
      requires forall i | 0 <= i < |shares| :: shares[i].payment < |payments|
      requires env.sandbox || forall i | 0 <= i < |shares| :: payments[shares[i].payment].cash
      modifies this`operations
      ensures error.None?
      ensures var op := old(operations)[o];
              operations == old(operations)[o := op.(legs := RefundProtocol.StartLegs(payments, shares, op.scenario))]
    {
      var i := 0;
      ghost var op, started := operations[o], RefundProtocol.StartLegs(payments, shares, operations[o].scenario);
      while i < |shares|
        invariant i <= |shares|
        invariant operations == old(operations)[o := op.(legs := started[..i])]
      {
        var cash := payments[shares[i].payment].cash;
        var leg := Leg(cash, if cash then CashDue else Requested, 0, 0);
        operations := operations[o := operations[o].(legs := operations[o].legs + [leg])];
        if !cash {
          error := CallProvider(o, i, false, env);
        }
        assert started[..i + 1] == started[..i] + [started[i]];
        assert operations[o].legs == started[..i + 1];
        i := i + 1;
      }
      assert started[..i] == started;
      error := None;
    }

    method Execute(key: string, q: nat, scenario: Scenario, approved: bool, unexpired: bool, env: Environment)
      returns (error: Option<RefundError>)
      modifies this
      ensures ApplyExecute(old(State()), key, q, scenario, approved, unexpired, env) ==
              if error.Some? then Err(error.value) else Ok(State())
    {
      hide RefundProtocol.Settle, RefundProtocol.StartLegs;
      if exists o | 0 <= o < |operations| :: operations[o].key == key {
        return if RequestKnown(State(), key, q, scenario) then None else Some(DuplicateRequest);
      }
      if !approved { return Some(MakerCheckerRequired); }
      if q >= |quotes| || !SharesValid(State(), quotes[q].shares) { return Some(QuoteNotFound); }
      var quote := quotes[q];
      if quote.consumed || !unexpired { return Some(StaleQuote); }
      if quote.orderVersion != version { return Some(VersionConflict); }
      if !env.sandbox && NeedsProvider(State(), quote.shares) { return Some(ProviderDisabled); }
      version := version + 1;
      var o := |operations|;
      operations := operations + [Operation(key, q, quote.quantities, quote.total, quote.shares, scenario, [],
                                            OpProcessing, false, 1)];
      error := StartLegs(o, quote.shares, env);
      quotes := quotes[q := quote.(consumed := true)];
      assert State() == Begin(old(State()), key, q, scenario) by {
        assert operations == old(operations) + [operations[o]];
      }
      error := Settle(o, env);
    }

    /** The part of `confirm_cash` that looks at the legs and changes them. */
    method ConfirmCashLegs(o: nat) returns (error: Option<RefundError>)
      requires o < |operations|
      modifies this`operations
      ensures |operations| == |old(operations)|
      ensures TaskLegs(old(operations)[o], ConfirmCash, true) ==
              if error.Some? then Err(error.value) else Ok(operations[o].legs)
      ensures error.None? ==> operations == old(operations)[o := old(operations)[o].(legs := operations[o].legs)]
    {
      var legs := operations[o].legs;
      if !(exists i | 0 <= i < |legs| :: legs[i].cash) { return Some(CashNotDue); }
      if exists i | 0 <= i < |legs| :: legs[i].cash && legs[i].status !in {CashDue, Succeeded} {
        return Some(CashNotDue);
      }
      if exists i | 0 <= i < |legs| :: !legs[i].cash && legs[i].status != Succeeded {
        return Some(ProviderNotSucceeded);
      }
      var i := 0;
      while i < |legs|
        invariant |operations| == |old(operations)| && i <= |legs| == |operations[o].legs|
        invariant operations == old(operations)[o := old(operations)[o].(legs := operations[o].legs)]
        invariant forall k | 0 <= k < i ::
                    operations[o].legs[k] == if legs[k].cash then legs[k].(status := Succeeded) else legs[k]
        invariant forall k | i <= k < |legs| :: operations[o].legs[k] == legs[k]
      {
        if legs[i].cash && legs[i].status != Succeeded {
          var op := operations[o];
          operations := operations[o := op.(legs := op.legs[i := op.legs[i].(status := Succeeded)])];
        }
        i := i + 1;
      }
      assert operations[o].legs == MapLegs(legs, (leg: Leg) => if leg.cash then leg.(status := Succeeded) else leg);
      error := None;
    }

    /** The legs an inquiry or a retry is about, called one after the other. */
    method CallLegs(o: nat, task: Task, env: Environment) returns (error: Option<RefundError>)
      requires o < |operations| && task != ConfirmCash
      requires exists i | 0 <= i < |operations[o].legs| :: Concerns(task, operations[o].legs[i])
      modifies this`operations
      ensures |operations| == |old(operations)|
      ensures error == if env.sandbox then None else Some(ProviderDisabled)
      ensures error.None? ==> operations == old(operations)[o := old(operations)[o].(legs := operations[o].legs)]
      ensures error.None? ==> var op := old(operations)[o];
                operations[o].legs == MapLegs(op.legs, (leg: Leg) =>
                  if Concerns(task, leg) then RefundProtocol.CallProvider(leg, op.scenario, task == Inquire) else leg)
    {
      ghost var op := operations[o];
      var legs := operations[o].legs;
      var i := 0;
      while i < |legs|
        invariant |operations| == |old(operations)| && i <= |legs| == |operations[o].legs|
        invariant operations == old(operations)[o := op.(legs := operations[o].legs)]
        invariant forall k | 0 <= k < i ::
                    operations[o].legs[k] == if Concerns(task, legs[k]) then Called(op, k, task == Inquire) else legs[k]
        invariant forall k | i <= k < |legs| :: operations[o].legs[k] == legs[k]
        invariant env.sandbox || forall k | 0 <= k < i :: !Concerns(task, legs[k])
      {
        if Concerns(task, legs[i]) {
          error := CallProvider(o, i, task == Inquire, env);
          if error.Some? { return; }
        }
        i := i + 1;
      }
      error := None;
    }

    /** `inquire` and `retry`, up to settling: the guards on the legs, then the calls. */
    method ProviderLegs(o: nat, task: Task, env: Environment) returns (error: Option<RefundError>)
      requires o < |operations| && task != ConfirmCash
      modifies this`operations
      ensures |operations| == |old(operations)|
      ensures TaskLegs(old(operations)[o], task, env.sandbox) ==
              if error.Some? then Err(error.value) else Ok(operations[o].legs)
      ensures error.None? ==> operations == old(operations)[o := old(operations)[o].(legs := operations[o].legs)]
    {
      hide RefundProtocol.CallProvider;
      var legs := operations[o].legs;
      if task == Retry && exists i | 0 <= i < |legs| :: legs[i].status == Unknown { return Some(InquiryRequired); }
      if !(exists i | 0 <= i < |legs| :: Concerns(task, legs[i])) {
        return Some(if task == Retry then RetryNotSafe else InquiryNotAvailable);
      }
      if task == Retry && exists i | 0 <= i < |legs| :: legs[i].status == Succeeded { return Some(RetryNotSafe); }
      ghost var op := operations[o];
      error := CallLegs(o, task, env);
      if error.None? {
        var after := operations[o].legs;
        assert task == Inquire ==> after == MapLegs(op.legs, InquiryOf(op.scenario));
        assert task == Retry ==> after == MapLegs(op.legs, RetryOf(op.scenario));
      }
    }

    method Operate(task: Task, o: nat, expected: nat, env: Environment) returns (error: Option<RefundError>)
      modifies this
      ensures ApplyTask(old(State()), task, o, expected, env) == if error.Some? then Err(error.value) else Ok(State())
    {
      hide RefundProtocol.Settle, TaskLegs;
      if o >= |operations| { return Some(OperationNotFound); }
      if operations[o].version != expected { return Some(VersionConflict); }
      if task == ConfirmCash && operations[o].status == Completed { return None; }
      ConfirmNeedsNoProvider(operations[o], env.sandbox);
      if task == ConfirmCash {
        error := ConfirmCashLegs(o);
      } else {
        error := ProviderLegs(o, task, env);
      }
      if error.Some? { return; }
      SettleOwnLegs(old(State()), o, operations[o].legs, env);
      error := Settle(o, env);
    }

    method RetryTax(o: nat, expected: nat, env: Environment) returns (error: Option<RefundError>)
      modifies this
      ensures ApplyRetryTax(old(State()), o, expected, env) == if error.Some? then Err(error.value) else Ok(State())
    {
      if o >= |operations| { return Some(OperationNotFound); }
      var op := operations[o];
      if op.version != expected { return Some(VersionConflict); }
      if !op.finalized || op.status != TaxPending { return Some(TaxRetryNotAvailable); }
      var status := if env.creditNoteReady then Completed else TaxPending;
      operations := operations[o := op.(status := status, version := op.version + 1)];
      error := None;
    }

    /** The event already stored under this id. */
    method FindEvent(id: string) returns (known: Option<Event>)
      ensures known == Stored(events, id)
    {
      var i := |events|;
      assert events[..i] == events;
      while i > 0
        invariant 0 <= i <= |events|
        invariant Stored(events, id) == Stored(events[..i], id)
      {
        assert events[..i][..i - 1] == events[..i - 1];
        if events[i - 1].id == id { return Some(events[i - 1]); }
        i := i - 1;
      }
      known := None;
    }

    /** `apply_webhook` */
    method Deliver(e: Event, signed: bool, env: Environment) returns (error: Option<RefundError>)
      modifies this
      ensures ApplyDeliver(old(State()), e, signed, env) == if error.Some? then Err(error.value) else Ok(State())
    {
      hide RefundProtocol.Settle, Stored;
      if !Reportable(e) { return Some(InvalidReport); }
      var o := e.operation;
      if o >= |operations| || e.leg >= |operations[o].legs| { return Some(OperationNotFound); }
      var known := FindEvent(e.id);
      if known.Some? {
        return if known.value == e then None else Some(EventConflict);
      }
      events := events + [e];
      var op := operations[o];
      if !signed || e.sequence <= op.legs[e.leg].sequence { return None; }
      var leg := op.legs[e.leg].(sequence := e.sequence, status := e.report);
      operations := operations[o := op.(legs := op.legs[e.leg := leg])];
      SettleOwnLegs(Remember(old(State()), e), o, operations[o].legs, env);
      error := Settle(o, env);
    }

    /** One request: it either takes its step or leaves the rows as they were. */
    method Perform(a: Action) returns (error: Option<RefundError>)
      modifies this
      ensures State() == Step(old(State()), a)
      ensures error.None? <==> Apply(old(State()), a).Ok?
    {
      var before := State();
      match a {
        case CreateQuote(quantities, amount) => error := CreateQuote(quantities, amount);
        case Execute(key, q, scenario, approved, unexpired, env) =>
          error := Execute(key, q, scenario, approved, unexpired, env);
        case Operate(task, o, expected, env) => error := Operate(task, o, expected, env);
        case RetryTax(o, expected, env) => error := RetryTax(o, expected, env);
        case Deliver(e, signed, env) => error := Deliver(e, signed, env);
      }
      if error.Some? { Rollback(before); }
    }

    /** A whole run of requests. */
    method PerformAll(actions: seq<Action>)
      modifies this
      ensures State() == Run(old(State()), actions)
    {
      var i := 0;
      while i < |actions|
        invariant i <= |actions|
        invariant Run(State(), actions[i..]) == Run(old(State()), actions)
      {
        assert actions[i..][1..] == actions[i + 1..];
        var error := Perform(actions[i]);
        i := i + 1;
      }
    }
  }
}
