/** What the provider's events make of a refund: the log of events, and the leg each of them reports on. */
module RefundReports {
  import opened Wrappers
  import opened UniqueTable
  import opened RefundProtocol
  import opened RefundSafety
  import opened RefundHistory
  import opened RefundPosting

  // ----- The log -----

  function IdOf(e: Event): string {
    e.id
  }

  lemma {:induction false} StoredIsKey(events: seq<Event>, id: string)
    ensures Stored(events, id).Some? <==> id in Keys(IdOf, events)
    ensures Stored(events, id).Some? ==> Stored(events, id).value in events && Stored(events, id).value.id == id
  {
    if events != [] {
      var front, e := events[..|events| - 1], events[|events| - 1];
      StoredIsKey(front, id);
      KeysOneMore(IdOf, front, e);
      assert events == front + [e];
    }
  }

  /** The events of the deliveries that were not refused or rolled back, in their order. */
  function Committed(s: Sale, actions: seq<Action>): seq<Event>
    decreases |actions|
  {
    if actions == [] then []
    else
      var rest := Committed(Step(s, actions[0]), actions[1..]);
      if actions[0].Deliver? && Apply(s, actions[0]).Ok? then [actions[0].event] + rest else rest
  }

  lemma SettleEvents(s: Sale, o: nat, legs: seq<Leg>, env: Environment)
    requires o < |s.operations| && Settle(s, o, legs, env).Ok?
    ensures Settle(s, o, legs, env).value.events == s.events
  {
  }

  lemma StepStores(s: Sale, a: Action)
    ensures Step(s, a).events ==
            if a.Deliver? && Apply(s, a).Ok? then Store(IdOf, s.events, a.event) else s.events
  {
    hide Settle, TaskLegs, Keys;
    if Apply(s, a).Ok? {
      match a
      case CreateQuote(_, _) =>
      case Execute(key, q, scenario, _, _, env) =>
        if !KeyUsed(s, key) {
          var begun := Begin(s, key, q, scenario);
          SettleEvents(begun, |s.operations|, begun.operations[|s.operations|].legs, env);
        }
      case Operate(task, o, _, env) =>
        if !(task == ConfirmCash && s.operations[o].status == Completed) {
          SettleEvents(s, o, TaskLegs(s.operations[o], task, env.sandbox).value, env);
        }
      case RetryTax(_, _, _) =>
      case Deliver(e, signed, env) =>
        StoredIsKey(s.events, e.id);
        if Lands(s, a, e.operation) {
          SettleEvents(Remember(s, e), e.operation, ReportLegs(s.operations[e.operation].legs, e), env);
        }
    }
  }

  lemma {:induction false} RunStores(s: Sale, actions: seq<Action>)
    ensures Run(s, actions).events == StoreAll(IdOf, s.events, Committed(s, actions))
    decreases |actions|
  {
    hide Step, Apply, Store;
    if actions != [] {
      StepStores(s, actions[0]);
      RunStores(Step(s, actions[0]), actions[1..]);
      var rest := Committed(Step(s, actions[0]), actions[1..]);
      if actions[0].Deliver? { assert ([actions[0].event] + rest)[1..] == rest; }
    }
  }

  /** After any run the log holds exactly the first committed delivery of each event id, in order. */
  lemma LogIsFirstCommitted(total: nat, sold: seq<nat>, payments: seq<Payment>, actions: seq<Action>)
    ensures var start := FreshSale(total, sold, payments);
            var committed := Committed(start, actions);
            && Run(start, actions).events == Pick(committed, FirstPositions(IdOf, committed))
            && DistinctKeys(IdOf, Run(start, actions).events)
  {
    hide Run, Committed;
    var start := FreshSale(total, sold, payments);
    RunStores(start, actions);
    StoresFirstInputs(IdOf, Committed(start, actions));
    StoredDistinct(IdOf, Committed(start, actions));
  }

  lemma RunKeepsEvent(s: Sale, actions: seq<Action>, id: string)
    requires Stored(s.events, id).Some?
    ensures Stored(Run(s, actions).events, id) == Stored(s.events, id)
    decreases |actions|
  {
    hide Step, Apply;
    if actions != [] {
      StepStores(s, actions[0]);
      if actions[0].Deliver? { StoreKeeps(s.events, actions[0].event, id); }
      RunKeepsEvent(Step(s, actions[0]), actions[1..], id);
    }
  }

  lemma StoreKeeps(events: seq<Event>, e: Event, id: string)
    requires Stored(events, id).Some?
    ensures Stored(Store(IdOf, events, e), id) == Stored(events, id)
  {
    hide Keys;
    StoredIsKey(events, id);
    if IdOf(e) !in Keys(IdOf, events) {
      var more := events + [e];
      assert more[|more| - 1] == e && more[..|more| - 1] == events;
    }
  }

  /**
   An event id stands for its first report for good: delivered again the same report changes nothing, and
   another one under the same id is refused as a conflict, in every later state.
   */
  lemma IdStandsForReport(s: Sale, first: Action, actions: seq<Action>, again: Action)
    requires first.Deliver? && Apply(s, first).Ok? && Stored(s.events, first.event.id).None?
    requires again.Deliver? && again.event.id == first.event.id && Reportable(again.event)
    ensures var t := Run(Step(s, first), actions);
            again.event.operation < |t.operations| && again.event.leg < |t.operations[again.event.operation].legs| ==>
              && Step(t, again) == t
              && Apply(t, again) == if again.event == first.event then Ok(t) else Err(EventConflict)
  {
    hide Run, Settle;
    var e := first.event;
    assert Stored(Step(s, first).events, e.id) == Some(e) by {
      hide Step;
      StepStores(s, first);
      StoredIsKey(s.events, e.id);
      assert (s.events + [e])[|s.events|] == e;
    }
    RunKeepsEvent(Step(s, first), actions, e.id);
  }

  // ----- The leg -----

  predicate HasLeg(s: Sale, o: nat, l: nat) {
    o < |s.operations| && l < |s.operations[o].legs|
  }

  function LegOf(s: Sale, o: nat, l: nat): Leg
    requires HasLeg(s, o, l)
  {
    s.operations[o].legs[l]
  }

  /** The attempt is not rolled back, seen before it is made. */
  predicate Takes(s: Sale, a: Action) {
    match Attempted(s, a)
    case Some(t) => Due(t) ==> Posts(s, t)
    case None => false
  }

  /** A signed report on the leg that a provider may make. */
  predicate Reports(a: Action, o: nat, l: nat) {
    a.Deliver? && a.signed && Reportable(a.event) && a.event.operation == o && a.event.leg == l
  }

  predicate Hears(s: Sale, a: Action, o: nat, l: nat) {
    Reports(a, o, l) && Lands(s, a, o) && Takes(s, a)
  }

  lemma TasksKeepSequence(op: Operation, task: Task, sandbox: bool, l: nat)
    requires l < |op.legs| && TaskLegs(op, task, sandbox).Ok?
    ensures TaskLegs(op, task, sandbox).value[l].sequence == op.legs[l].sequence
  {
  }

  /** How one action changes a leg. */
  lemma LegStep(s: Sale, a: Action, o: nat, l: nat)
    requires Inv(s) && HasLeg(s, o, l)
    ensures var after := Step(s, a);
            && HasLeg(after, o, l)
            && LegOf(after, o, l).sequence == (if Hears(s, a, o, l) then a.event.sequence else LegOf(s, o, l).sequence)
            && (Hears(s, a, o, l) ==> LegOf(after, o, l).status == a.event.report)
            && (!Hears(s, a, o, l) && !(a.Operate? && a.operation == o) ==> LegOf(after, o, l) == LegOf(s, o, l))
  {
    hide Step, Inv, TaskLegs, DeriveStatus;
    if Attempted(s, a).Some? {
      AttemptOutcome(s, a);
      if a.Operate? && a.operation == o { TasksKeepSequence(s.operations[o], a.task, a.env.sandbox, l); }
    } else {
      NoAttempt(s, a, o);
    }
  }

  /** Some action of the run is heard by the leg in the state it finds, and numbered at least `n`. */
  predicate HeardAtLeast(s: Sale, actions: seq<Action>, o: nat, l: nat, n: nat)
    decreases |actions|
  {
    actions != [] &&
    ((Hears(s, actions[0], o, l) && actions[0].event.sequence >= n) ||
     HeardAtLeast(Step(s, actions[0]), actions[1..], o, l, n))
  }

  predicate NoTasks(actions: seq<Action>, o: nat) {
    forall a | a in actions :: !(a.Operate? && a.operation == o)
  }

  lemma HeardIsNews(s: Sale, a: Action, o: nat, l: nat)
    requires HasLeg(s, o, l)
    ensures Hears(s, a, o, l) ==> Reports(a, o, l) && a.event.sequence > LegOf(s, o, l).sequence
  {
  }

  /** A leg reaches a sequence number exactly when it had it, or hears a report numbered so or higher. */
  lemma {:induction false} SequenceExactly(s: Sale, actions: seq<Action>, o: nat, l: nat, n: nat)
    requires Inv(s) && HasLeg(s, o, l)
    ensures HasLeg(Run(s, actions), o, l)
    ensures n <= LegOf(Run(s, actions), o, l).sequence <==>
            n <= LegOf(s, o, l).sequence || HeardAtLeast(s, actions, o, l, n)
    decreases |actions|
  {
    hide Step, Inv, Hears, LegOf, HasLeg;
    if actions != [] {
      StepKeeps(s, actions[0]);
      LegStep(s, actions[0], o, l);
      HeardIsNews(s, actions[0], o, l);
      SequenceExactly(Step(s, actions[0]), actions[1..], o, l, n);
    }
  }

  /** So it never falls, whatever happens. */
  lemma SequenceNeverFalls(s: Sale, actions: seq<Action>, o: nat, l: nat)
    requires Inv(s) && HasLeg(s, o, l)
    ensures HasLeg(Run(s, actions), o, l)
    ensures LegOf(s, o, l).sequence <= LegOf(Run(s, actions), o, l).sequence
  {
    hide Run, Inv;
    SequenceExactly(s, actions, o, l, LegOf(s, o, l).sequence);
  }

  /** The leg shows this report. */
  predicate Shows(leg: Leg, a: Action) {
    a.Deliver? && leg.sequence == a.event.sequence && leg.status == a.event.report
  }

  /** A leg shows a report made on it in the run, or, without an operator's tasks, just what it showed before. */
  lemma {:induction false} ShowsSomeReport(s: Sale, actions: seq<Action>, o: nat, l: nat)
    requires Inv(s) && HasLeg(s, o, l)
    ensures HasLeg(Run(s, actions), o, l)
    ensures var before, leg := LegOf(s, o, l), LegOf(Run(s, actions), o, l);
            && before.sequence <= leg.sequence
            && (leg.sequence != before.sequence ==>
                  exists a | a in actions && Reports(a, o, l) :: a.event.sequence == leg.sequence)
            && (NoTasks(actions, o) && leg.sequence == before.sequence ==> leg == before)
            && (NoTasks(actions, o) && leg.sequence != before.sequence ==>
                  exists a | a in actions && Reports(a, o, l) :: Shows(leg, a))
    decreases |actions|
  {
    hide Step, Inv, Hears;
    if actions != [] {
      var a, rest := actions[0], actions[1..];
      assert forall x :: x in actions <==> x == a || x in rest;
      StepKeeps(s, a);
      LegStep(s, a, o, l);
      ShowsSomeReport(Step(s, a), rest, o, l);
      HeardIsNews(s, a, o, l);
    }
  }

  /** Every report that is news at the start is heard, or one numbered so or higher is. */
  predicate LatestHeard(s: Sale, actions: seq<Action>, o: nat, l: nat)
    requires HasLeg(s, o, l)
  {
    forall a | a in actions && Reports(a, o, l) && a.event.sequence > LegOf(s, o, l).sequence ::
      HeardAtLeast(s, actions, o, l, a.event.sequence)
  }

  /**
   A leg ends with the highest number reported on it exactly when the report with that number is heard;
   without an operator's tasks it then shows that report, or what it showed before if none was newer.
   */
  lemma ShowsLatestReport(s: Sale, actions: seq<Action>, o: nat, l: nat)
    requires Inv(s) && HasLeg(s, o, l)
    ensures HasLeg(Run(s, actions), o, l)
    ensures var before, leg := LegOf(s, o, l), LegOf(Run(s, actions), o, l);
            && ((forall a | a in actions && Reports(a, o, l) :: a.event.sequence <= leg.sequence) <==>
                LatestHeard(s, actions, o, l))
            && (leg.sequence != before.sequence ==>
                  exists a | a in actions && Reports(a, o, l) :: a.event.sequence == leg.sequence)
            && (NoTasks(actions, o) && leg.sequence == before.sequence ==> leg == before)
            && (NoTasks(actions, o) && leg.sequence != before.sequence ==>
                  exists a | a in actions && Reports(a, o, l) :: Shows(leg, a))
  {
    hide Run, Inv, HeardAtLeast, HasLeg, LegOf, NoTasks;
    ShowsSomeReport(s, actions, o, l);
    forall a | a in actions && Reports(a, o, l)
      ensures a.event.sequence <= LegOf(Run(s, actions), o, l).sequence <==>
              a.event.sequence <= LegOf(s, o, l).sequence || HeardAtLeast(s, actions, o, l, a.event.sequence)
    {
      SequenceExactly(s, actions, o, l, a.event.sequence);
    }
  }

  // ----- Reports in another order -----

  /** The two runs make the same reports on the leg. */
  ghost predicate SameReports(actions: seq<Action>, others: seq<Action>, o: nat, l: nat) {
    && (forall a | a in actions && Reports(a, o, l) :: exists b | b in others :: Reports(b, o, l) && SameReport(a, b))
    && (forall b | b in others && Reports(b, o, l) :: exists a | a in actions :: Reports(a, o, l) && SameReport(a, b))
  }

  predicate SameReport(a: Action, b: Action) {
    a.Deliver? && b.Deliver? && a.event.sequence == b.event.sequence && a.event.report == b.event.report
  }

  /** No two reports on the leg share a sequence number but not a state. */
  predicate Unambiguous(actions: seq<Action>, o: nat, l: nat) {
    forall a, b | a in actions && b in actions && Reports(a, o, l) && Reports(b, o, l) ::
      a.event.sequence == b.event.sequence ==> a.event.report == b.event.report
  }

  /** Every report in the one run is made in the other one too. */
  ghost predicate ReportsWithin(actions: seq<Action>, others: seq<Action>, o: nat, l: nat) {
    forall a | a in actions && Reports(a, o, l) :: exists b | b in others :: Reports(b, o, l) && SameReport(a, b)
  }

  lemma NoLater(s: Sale, actions: seq<Action>, others: seq<Action>, o: nat, l: nat)
    requires Inv(s) && HasLeg(s, o, l)
    requires LatestHeard(s, others, o, l) && ReportsWithin(actions, others, o, l)
    ensures HasLeg(Run(s, actions), o, l) && HasLeg(Run(s, others), o, l)
    ensures LegOf(Run(s, actions), o, l).sequence <= LegOf(Run(s, others), o, l).sequence
  {
    hide Run, Inv, LatestHeard, Reports, LegOf, HasLeg;
    ShowsLatestReport(s, actions, o, l);
    ShowsLatestReport(s, others, o, l);
    SequenceNeverFalls(s, others, o, l);
    if LegOf(Run(s, actions), o, l).sequence != LegOf(s, o, l).sequence {
      var a :| a in actions && Reports(a, o, l) && a.event.sequence == LegOf(Run(s, actions), o, l).sequence;
      var b :| b in others && Reports(b, o, l) && SameReport(a, b);
      assert b.event.sequence <= LegOf(Run(s, others), o, l).sequence;
    }
  }

  /** A run whose leg ends as high as one that heard the latest of the same reports has heard it too. */
  lemma AsHighIsLatest(s: Sale, actions: seq<Action>, others: seq<Action>, o: nat, l: nat)
    requires Inv(s) && HasLeg(s, o, l)
    requires LatestHeard(s, actions, o, l) && ReportsWithin(others, actions, o, l)
    requires HasLeg(Run(s, actions), o, l) && HasLeg(Run(s, others), o, l)
    requires LegOf(Run(s, actions), o, l).sequence == LegOf(Run(s, others), o, l).sequence
    ensures LatestHeard(s, others, o, l)
  {
    hide Run, Inv, LatestHeard, Reports, LegOf, HasLeg;
    ShowsLatestReport(s, actions, o, l);
    ShowsLatestReport(s, others, o, l);
    forall b | b in others && Reports(b, o, l)
      ensures b.event.sequence <= LegOf(Run(s, others), o, l).sequence
    {
      var a :| a in actions && Reports(a, o, l) && SameReport(b, a);
    }
  }

  lemma SameReportsBothWays(actions: seq<Action>, others: seq<Action>, o: nat, l: nat)
    requires SameReports(actions, others, o, l)
    ensures ReportsWithin(actions, others, o, l) && ReportsWithin(others, actions, o, l)
  {
    hide Reports;
    forall b | b in others && Reports(b, o, l) ensures exists a | a in actions :: Reports(a, o, l) && SameReport(b, a) {
      var a :| a in actions && Reports(a, o, l) && SameReport(a, b);
    }
  }

  lemma SameNumberSameState(actions: seq<Action>, others: seq<Action>, o: nat, l: nat, a: Action, b: Action)
    requires Unambiguous(actions, o, l) && ReportsWithin(others, actions, o, l)
    requires a in actions && Reports(a, o, l) && b in others && Reports(b, o, l)
    requires a.event.sequence == b.event.sequence
    ensures a.event.report == b.event.report
  {
    hide Reports;
    var c :| c in actions && Reports(c, o, l) && SameReport(b, c);
  }

  /** The report a leg came to show. */
  lemma ShownReport(s: Sale, actions: seq<Action>, o: nat, l: nat) returns (a: Action)
    requires Inv(s) && HasLeg(s, o, l) && NoTasks(actions, o)
    requires HasLeg(Run(s, actions), o, l) && LegOf(Run(s, actions), o, l).sequence != LegOf(s, o, l).sequence
    ensures a in actions && Reports(a, o, l) && Shows(LegOf(Run(s, actions), o, l), a)
  {
    hide Run, Inv, LatestHeard, Reports, LegOf, HasLeg, NoTasks;
    ShowsLatestReport(s, actions, o, l);
    a :| a in actions && Reports(a, o, l) && Shows(LegOf(Run(s, actions), o, l), a);
  }

  lemma UnreportedLeg(s: Sale, actions: seq<Action>, o: nat, l: nat)
    requires Inv(s) && HasLeg(s, o, l) && NoTasks(actions, o)
    requires HasLeg(Run(s, actions), o, l) && LegOf(Run(s, actions), o, l).sequence == LegOf(s, o, l).sequence
    ensures LegOf(Run(s, actions), o, l) == LegOf(s, o, l)
  {
    hide Run, Inv, LatestHeard, Reports, LegOf, HasLeg, NoTasks;
    ShowsLatestReport(s, actions, o, l);
  }

  /**
   The order of arrival does not matter, nor what else happens: of two runs with the same reports, one of
   which hears the latest, the other leaves the leg the same exactly when it hears the latest as well.
   */
  lemma ArrivalOrderIrrelevant(s: Sale, actions: seq<Action>, others: seq<Action>, o: nat, l: nat)
    requires Inv(s) && HasLeg(s, o, l) && LatestHeard(s, actions, o, l)
    requires NoTasks(actions, o) && NoTasks(others, o)
    requires SameReports(actions, others, o, l) && Unambiguous(actions, o, l)
    ensures HasLeg(Run(s, actions), o, l) && HasLeg(Run(s, others), o, l)
    ensures LatestHeard(s, others, o, l) <==>
            && LegOf(Run(s, actions), o, l).sequence == LegOf(Run(s, others), o, l).sequence
            && LegOf(Run(s, actions), o, l).status == LegOf(Run(s, others), o, l).status
  {
    hide Run, Inv, LatestHeard, Reports, LegOf, HasLeg, NoTasks, SameReports, ReportsWithin, Unambiguous;
    SameReportsBothWays(actions, others, o, l);
    ShowsSomeReport(s, actions, o, l);
    NoLater(s, others, actions, o, l);
    if LatestHeard(s, others, o, l) {
      NoLater(s, actions, others, o, l);
      SameLeg(s, actions, others, o, l);
    } else if LegOf(Run(s, actions), o, l).sequence == LegOf(Run(s, others), o, l).sequence {
      AsHighIsLatest(s, actions, others, o, l);
    }
  }

  lemma SameLeg(s: Sale, actions: seq<Action>, others: seq<Action>, o: nat, l: nat)
    requires Inv(s) && HasLeg(s, o, l) && NoTasks(actions, o) && NoTasks(others, o)
    requires ReportsWithin(others, actions, o, l) && Unambiguous(actions, o, l)
    requires HasLeg(Run(s, actions), o, l) && HasLeg(Run(s, others), o, l)
    requires LegOf(Run(s, actions), o, l).sequence == LegOf(Run(s, others), o, l).sequence
    ensures LegOf(Run(s, actions), o, l).status == LegOf(Run(s, others), o, l).status
  {
    hide Run, Inv, Reports, LegOf, HasLeg, NoTasks, ReportsWithin, Unambiguous;
    if LegOf(Run(s, actions), o, l).sequence != LegOf(s, o, l).sequence {
      var a := ShownReport(s, actions, o, l);
      var b := ShownReport(s, others, o, l);
      SameNumberSameState(actions, others, o, l, a, b);
    } else {
      UnreportedLeg(s, actions, o, l);
      UnreportedLeg(s, others, o, l);
    }
  }

  // ----- A report that is lost -----

  /**
   An unsigned delivery takes the event id without effect, and from then on no delivery under that id has
   one either, signed or not: a signed report that comes second is lost.
   */
  lemma UnsignedTakesTheId(s: Sale, e: Event, env: Environment, actions: seq<Action>, again: Action)
    requires Reportable(e) && HasLeg(s, e.operation, e.leg) && Stored(s.events, e.id).None?
    requires again.Deliver? && again.event.id == e.id
    ensures Step(s, Deliver(e, false, env)) == Remember(s, e)
    ensures var t := Run(Step(s, Deliver(e, false, env)), actions); Step(t, again) == t
  {
    hide Run, Settle, Stored;
    var first := Deliver(e, false, env);
    var t := Run(Step(s, first), actions);
    if Reportable(again.event) {
      IdStandsForReport(s, first, actions, again);
    }
  }

  /** Delivered unsigned and then signed, even the newest report leaves every operation as it was. */
  lemma SignedReportLost(s: Sale, e: Event, env: Environment)
    requires Reportable(e) && HasLeg(s, e.operation, e.leg) && Stored(s.events, e.id).None?
    ensures Run(s, [Deliver(e, false, env), Deliver(e, true, env)]).operations == s.operations
  {
    hide Step;
    var unsigned, signed := Deliver(e, false, env), Deliver(e, true, env);
    UnsignedTakesTheId(s, e, env, [], signed);
    assert [unsigned, signed][1..] == [signed] && [signed][1..] == [];
    assert Run(Step(s, unsigned), []) == Step(s, unsigned);
    assert Run(Step(s, unsigned), [signed]) == Run(Step(Step(s, unsigned), signed), []);
  }
}
