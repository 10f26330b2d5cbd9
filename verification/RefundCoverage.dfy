/**
 Why payments are mostly not paid back beyond their amounts: quotes leave alone what running operations
 still hold. Only a failed operation that comes back can break this, and this says exactly when it does.
 */
module RefundCoverage {
  import opened Wrappers
  import opened Sums
  import opened RefundProtocol
  import opened RefundSafety
  import opened RefundHistory
  import opened RefundPosting

  /** An operation holds its shares unless it failed before it was finalized. */
  predicate Holds(op: Operation) {
    op.finalized || op.status != OpFailed
  }

  function HeldOf(p: nat): Operation -> nat {
    (op: Operation) => if Holds(op) then ShareOf(op.shares, p) else 0
  }

  /** What is paid back of payment `p`, or still may be. */
  function Held(s: Sale, p: nat): nat {
    Sum(s.operations, HeldOf(p))
  }

  predicate Open(s: Sale, q: Quote) {
    !q.consumed && q.orderVersion == s.version
  }

  /** Every payment covers what is held of it, and each open quote on top of that. */
  ghost predicate Covered(s: Sale) {
    && (forall p | 0 <= p < |s.payments| :: Held(s, p) <= s.payments[p].amount)
    && (forall q, p | 0 <= q < |s.quotes| && Open(s, s.quotes[q]) && 0 <= p < |s.payments| ::
          Held(s, p) + ShareOf(s.quotes[q].shares, p) <= s.payments[p].amount)
  }

  /** The attempt brings a failed operation back, seen before it is made. */
  predicate Revives(s: Sale, t: Attempt) {
    && t.status == OpFailed && !t.finalized
    && if Due(t) then Posts(s, t) else DeriveStatus(OpFailed, t.legs) != OpFailed
  }

  /** The payments cover these shares on top of what is held. */
  ghost predicate Room(s: Sale, shares: seq<Share>) {
    forall p | 0 <= p < |s.payments| :: Held(s, p) + ShareOf(shares, p) <= s.payments[p].amount
  }

  /** And each open quote on top of that. */
  ghost predicate RoomBesideQuotes(s: Sale, shares: seq<Share>) {
    && Room(s, shares)
    && forall q, p | 0 <= q < |s.quotes| && Open(s, s.quotes[q]) && 0 <= p < |s.payments| ::
         Held(s, p) + ShareOf(shares, p) + ShareOf(s.quotes[q].shares, p) <= s.payments[p].amount
  }

  /** There is room for what the action brings back; posting it closes the open quotes. */
  ghost predicate SafeRevival(s: Sale, a: Action) {
    match Attempted(s, a)
    case Some(t) => Revives(s, t) ==> if Posts(s, t) then Room(s, t.shares) else RoomBesideQuotes(s, t.shares)
    case None => true
  }

  /** What a finalized operation reserves although it is posted: its tax document is open, or it was contradicted. */
  function PostedAndReservedOf(p: nat): Operation -> nat {
    (op: Operation) => if op.finalized && Reserving(op.status) then ShareOf(op.shares, p) else 0
  }

  /**
   Posted is held, and a quote counts as used exactly what is held and, a second time, what finalized
   operations still reserve.
   */
  lemma UsedExactly(s: Sale, p: nat)
    requires Inv(s)
    ensures LedgerOf(s.ledger, p) <= Held(s, p)
    ensures Used(s, p) == Held(s, p) + Sum(s.operations, PostedAndReservedOf(p))
  {
    SumAtMost(s.operations, FinalShare(p), HeldOf(p));
    forall op | op in s.operations
      ensures FinalShare(p)(op) + ReservedOf(p)(op) == HeldOf(p)(op) + PostedAndReservedOf(p)(op)
    {
      assert OperationFits(s, op);
    }
    SumOfSums(s.operations, FinalShare(p), ReservedOf(p), HeldOf(p), PostedAndReservedOf(p));
  }

  /** How a move changes what is held. */
  lemma HeldMove(s: Sale, after: Sale, o: nat, p: nat)
    requires Moves(s, after, o)
    ensures var before, now := Holds(s.operations[o]), Holds(after.operations[o]);
            var share := ShareOf(s.operations[o].shares, p);
            Held(after, p) == Held(s, p) + (if !before && now then share else 0) - (if before && !now then share else 0)
  {
    SumReplace(s.operations, o, after.operations[o], HeldOf(p));
  }

  lemma HeldBegin(s: Sale, key: string, q: nat, scenario: Scenario, p: nat)
    requires q < |s.quotes| && SharesValid(s, s.quotes[q].shares)
    ensures Held(Begin(s, key, q, scenario), p) == Held(s, p) + ShareOf(s.quotes[q].shares, p)
  {
    SumAppend(s.operations, NewOperation(s, key, q, scenario), HeldOf(p));
  }

  /** No quote is open once the sale has a newer version. */
  lemma NewVersionClosesQuotes(s: Sale, after: Sale, q: nat)
    requires Inv(s) && |after.quotes| == |s.quotes| && q < |s.quotes| && after.version > s.version
    requires after.quotes[q].orderVersion == s.quotes[q].orderVersion
    ensures !Open(after, after.quotes[q])
  {
  }

  /** What a move needs to keep the payments covered, in terms of its result. */
  ghost predicate MoveHasRoom(s: Sale, after: Sale, o: nat)
    requires Moves(s, after, o)
  {
    !Holds(s.operations[o]) && Holds(after.operations[o]) ==>
      if after.version > s.version then Room(s, s.operations[o].shares) else RoomBesideQuotes(s, s.operations[o].shares)
  }

  lemma MoveKeepsCovered(s: Sale, after: Sale, o: nat)
    requires Inv(s) && Covered(s) && Moves(s, after, o) && MoveHasRoom(s, after, o)
    ensures Covered(after)
  {
    hide Held, Inv;
    forall p | 0 <= p < |s.payments| ensures Held(after, p) <= s.payments[p].amount {
      HeldMove(s, after, o, p);
    }
    forall q, p | 0 <= q < |s.quotes| && Open(after, s.quotes[q]) && 0 <= p < |s.payments|
      ensures Held(after, p) + ShareOf(s.quotes[q].shares, p) <= s.payments[p].amount
    {
      HeldMove(s, after, o, p);
      if after.version > s.version {
        NewVersionClosesQuotes(s, after, q);
      } else {
        assert Open(s, s.quotes[q]);
      }
    }
  }

  lemma CoveredMoveHadRoom(s: Sale, after: Sale, o: nat)
    requires Covered(after) && Moves(s, after, o)
    ensures MoveHasRoom(s, after, o)
  {
    hide Held;
    if !Holds(s.operations[o]) && Holds(after.operations[o]) {
      forall p ensures Held(after, p) == Held(s, p) + ShareOf(s.operations[o].shares, p) {
        HeldMove(s, after, o, p);
      }
      assert after.version == s.version ==>
          forall q | 0 <= q < |s.quotes| && Open(s, s.quotes[q]) :: Open(after, after.quotes[q]);
    }
  }

  lemma CoveredBegin(s: Sale, key: string, q: nat, scenario: Scenario)
    requires Inv(s) && Covered(s) && q < |s.quotes| && Open(s, s.quotes[q]) && SharesValid(s, s.quotes[q].shares)
    ensures Covered(Begin(s, key, q, scenario))
  {
    hide Held, Inv;
    var after := Begin(s, key, q, scenario);
    forall p | 0 <= p < |s.payments| ensures Held(after, p) <= s.payments[p].amount {
      HeldBegin(s, key, q, scenario, p);
    }
    forall k | 0 <= k < |after.quotes| ensures !Open(after, after.quotes[k]) {
      NewVersionClosesQuotes(s, after, k);
    }
  }

  lemma CoveredQuote(s: Sale, a: Action, quote: Quote)
    requires Inv(s) && Covered(s) && a.CreateQuote?
    requires Allocate(s.payments, UsedAll(s), 0, a.total).Ok?
    requires quote.shares == Allocate(s.payments, UsedAll(s), 0, a.total).value
    ensures Covered(s.(quotes := s.quotes + [quote]))
  {
    hide Held, Inv, Allocate;
    var after := s.(quotes := s.quotes + [quote]);
    assert forall p :: Held(after, p) == Held(s, p) by { HeldSame(s, after); }
    forall p | 0 <= p < |s.payments|
      ensures Held(s, p) + ShareOf(quote.shares, p) <= s.payments[p].amount
    {
      AllocationSound(s.payments, UsedAll(s), 0, a.total, p);
      UsedExactly(s, p);
    }
  }

  lemma HeldSame(s: Sale, after: Sale)
    requires s.operations == after.operations
    ensures forall p :: Held(after, p) == Held(s, p)
  {
  }

  /** What the attempt on an existing operation brings back is what its move brings back. */
  lemma RevivalIsMove(s: Sale, a: Action, o: nat)
    requires Inv(s) && Moves(s, Step(s, a), o)
    ensures SafeRevival(s, a) <==> MoveHasRoom(s, Step(s, a), o)
  {
    hide Step, Inv, Held, Room, RoomBesideQuotes, Attempted, DeriveStatus;
    var after := Step(s, a);
    if Attempted(s, a).Some? {
      var t := Attempted(s, a).value;
      AttemptOutcome(s, a);
      AttemptsItsOperation(s, a);
      if t.operation != o && !(Due(t) && !Posts(s, t)) {
        assert t.operation < |s.operations|;
        assert after.operations[t.operation] == s.operations[t.operation];
      }
    } else {
      NoAttempt(s, a, o);
    }
  }

  /** An attempt on an existing operation takes its terms, its status and its finalization from it. */
  lemma AttemptsItsOperation(s: Sale, a: Action)
    requires Attempted(s, a).Some?
    ensures var t := Attempted(s, a).value;
            if t.operation < |s.operations| then
              var op := s.operations[t.operation];
              t.shares == op.shares && t.status == op.status && t.finalized == op.finalized
            else t.status == OpProcessing
  {
    hide TaskLegs;
  }

  /** From covered payments, an action leads to covered payments exactly when there is room for what it brings back. */
  lemma CoveredStep(s: Sale, a: Action)
    requires Inv(s) && Covered(s)
    ensures Covered(Step(s, a)) <==> SafeRevival(s, a)
  {
    hide Step, Inv, Held, Attempted, Covered, MoveHasRoom, Revives, Allocate;
    var effect := StepEffect(s, a);
    match effect
    case Nothing => CoveredSame(s, Step(s, a)); UnmovedIsSafe(s, a, effect);
    case Quoted(quote) => CoveredQuote(s, a, quote); UnmovedIsSafe(s, a, effect);
    case Began(key, q, scenario) =>
      UnmovedIsSafe(s, a, effect);
      CoveredBegin(s, key, q, scenario);
      BeginKeeps(s, key, q, scenario);
      BegunHolds(s, key, q, scenario, Step(s, a));
      MoveKeepsCovered(Begin(s, key, q, scenario), Step(s, a), |s.operations|);
    case Moved(o) =>
      RevivalIsMove(s, a, o);
      if MoveHasRoom(s, Step(s, a), o) { MoveKeepsCovered(s, Step(s, a), o); }
      if Covered(Step(s, a)) { CoveredMoveHadRoom(s, Step(s, a), o); }
  }

  lemma CoveredSame(s: Sale, after: Sale)
    requires Covered(s) && after == s.(events := after.events)
    ensures Covered(after)
  {
    HeldSame(s, after);
  }

  lemma BegunHolds(s: Sale, key: string, q: nat, scenario: Scenario, after: Sale)
    requires q < |s.quotes| && SharesValid(s, s.quotes[q].shares)
    requires Moves(Begin(s, key, q, scenario), after, |s.operations|)
    ensures MoveHasRoom(Begin(s, key, q, scenario), after, |s.operations|)
  {
  }

  /** An action that moves no existing operation brings none back. */
  lemma UnmovedIsSafe(s: Sale, a: Action, effect: Effect)
    requires Inv(s) && HasEffect(s, Step(s, a), effect) && !effect.Moved?
    ensures SafeRevival(s, a)
  {
    hide Step, Inv, Attempted, Held, Room, RoomBesideQuotes, DeriveStatus;
    if Attempted(s, a).Some? {
      var t := Attempted(s, a).value;
      AttemptOutcome(s, a);
      AttemptsItsOperation(s, a);
      if effect.Began? && t.operation < |s.operations| {
        assert Begin(s, effect.key, effect.q, effect.scenario).operations[t.operation] == s.operations[t.operation];
      }
    }
  }

  // ----- Over whole runs -----

  /** The payments are covered in every state of the run. */
  ghost predicate CoveredThroughout(s: Sale, actions: seq<Action>)
    decreases |actions|
  {
    Covered(s) && (actions != [] ==> CoveredThroughout(Step(s, actions[0]), actions[1..]))
  }

  /** Every failed operation that comes back along the run has room when it does. */
  ghost predicate RevivalsHaveRoom(s: Sale, actions: seq<Action>)
    decreases |actions|
  {
    actions != [] ==> SafeRevival(s, actions[0]) && RevivalsHaveRoom(Step(s, actions[0]), actions[1..])
  }

  lemma {:induction false} RunCovered(s: Sale, actions: seq<Action>)
    requires Inv(s) && Covered(s)
    ensures CoveredThroughout(s, actions) <==> RevivalsHaveRoom(s, actions)
    decreases |actions|
  {
    hide Step, Inv, Covered, SafeRevival;
    if actions != [] {
      StepKeeps(s, actions[0]);
      CoveredStep(s, actions[0]);
      if Covered(Step(s, actions[0])) { RunCovered(Step(s, actions[0]), actions[1..]); }
    }
  }

  lemma FreshCovered(total: nat, sold: seq<nat>, payments: seq<Payment>)
    ensures Covered(FreshSale(total, sold, payments))
  {
  }

  lemma CoveredIsWithin(s: Sale)
    requires Inv(s) && Covered(s)
    ensures Within(s)
  {
    hide Inv, Held;
    forall p | 0 <= p < |s.payments| ensures LedgerOf(s.ledger, p) <= s.payments[p].amount {
      UsedExactly(s, p);
    }
  }

  lemma {:induction false} CoveredAtEnd(s: Sale, actions: seq<Action>)
    requires CoveredThroughout(s, actions)
    ensures Covered(Run(s, actions))
    decreases |actions|
  {
    hide Step, Covered;
    if actions != [] { CoveredAtEnd(Step(s, actions[0]), actions[1..]); }
  }

  /** Along a run whose revivals have room no payment is paid back beyond its amount. */
  lemma PaymentsNeverOverRefunded(total: nat, sold: seq<nat>, payments: seq<Payment>, actions: seq<Action>)
    requires RevivalsHaveRoom(FreshSale(total, sold, payments), actions)
    ensures Within(Run(FreshSale(total, sold, payments), actions))
  {
    hide Run, Inv, Covered;
    var s := FreshSale(total, sold, payments);
    FreshInv(total, sold, payments);
    FreshCovered(total, sold, payments);
    RunCovered(s, actions);
    CoveredAtEnd(s, actions);
    RunKeeps(s, actions);
    CoveredIsWithin(Run(s, actions));
  }

  /** No action of the run takes up a failed operation: nothing is retried, no webhook reports on one. */
  predicate NothingTakenUp(s: Sale, actions: seq<Action>)
    decreases |actions|
  {
    actions != [] ==>
      && (Attempted(s, actions[0]).Some? ==>
            Attempted(s, actions[0]).value.status != OpFailed || Attempted(s, actions[0]).value.finalized)
      && NothingTakenUp(Step(s, actions[0]), actions[1..])
  }

  lemma {:induction false} UntakenHaveRoom(s: Sale, actions: seq<Action>)
    requires NothingTakenUp(s, actions)
    ensures RevivalsHaveRoom(s, actions)
    decreases |actions|
  {
    hide Step, Attempted, Held, Room, RoomBesideQuotes;
    if actions != [] { UntakenHaveRoom(Step(s, actions[0]), actions[1..]); }
  }

  /** So only taking up a failed operation again can ever pay a payment back beyond its amount. */
  lemma OnlyRevivalsOverRefund(total: nat, sold: seq<nat>, payments: seq<Payment>, actions: seq<Action>)
    requires NothingTakenUp(FreshSale(total, sold, payments), actions)
    ensures Within(Run(FreshSale(total, sold, payments), actions))
  {
    hide Run, Covered;
    UntakenHaveRoom(FreshSale(total, sold, payments), actions);
    PaymentsNeverOverRefunded(total, sold, payments, actions);
  }
}
