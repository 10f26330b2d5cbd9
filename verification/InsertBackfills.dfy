/** The two migrations that fill a new table from the rows of an existing one. */
module InsertBackfills {
  import opened Wrappers
  import opened UniqueTable

  type Id = nat

  // ----- Central order links -----

  /** A central order; `content` stands for the columns a link copies. */
  datatype Order = Order(id: Id, closure: Option<Id>, content: string)

  datatype Link = Link(order: Id, closure: Id, content: string)

  function ClosureOf(l: Link): Id {
    l.closure
  }

  /** The rows of the select. */
  function Candidates(orders: seq<Order>): seq<Link> {
    if orders == [] then []
    else
      var o := orders[|orders| - 1];
      Candidates(orders[..|orders| - 1]) + if o.closure.Some? then [Link(o.id, o.closure.value, o.content)] else []
  }

  lemma {:induction false} CandidatesAre(orders: seq<Order>, l: Link)
    ensures l in Candidates(orders) <==> Order(l.order, Some(l.closure), l.content) in orders
  {
    if orders != [] {
      var front, o := orders[..|orders| - 1], orders[|orders| - 1];
      CandidatesAre(front, l);
      assert forall x :: x in orders <==> x in front || x == o;
    }
  }

  /** No shift closure has two central orders. */
  ghost predicate OneOrderPerClosure(orders: seq<Order>) {
    forall i, j | 0 <= i < j < |orders| && orders[i].closure.Some? :: orders[i].closure != orders[j].closure
  }

  lemma OneOrderPerClosureStep(front: seq<Order>, o: Order)
    ensures OneOrderPerClosure(front + [o]) <==>
            && OneOrderPerClosure(front)
            && (o.closure.Some? ==> forall i | 0 <= i < |front| :: front[i].closure != o.closure)
  {
    var all := front + [o];
    assert forall i | 0 <= i < |front| :: all[i] == front[i];
    assert all[|front|] == o;
  }

  lemma ClosureListed(orders: seq<Order>, closure: Id)
    ensures closure in Keys(ClosureOf, Candidates(orders)) <==>
            exists i | 0 <= i < |orders| :: orders[i].closure == Some(closure)
  {
    if closure in Keys(ClosureOf, Candidates(orders)) {
      var l :| l in Candidates(orders) && ClosureOf(l) == closure;
      CandidatesAre(orders, l);
      var i :| 0 <= i < |orders| && orders[i] == Order(l.order, Some(l.closure), l.content);
    }
    forall i | 0 <= i < |orders| && orders[i].closure == Some(closure)
      ensures closure in Keys(ClosureOf, Candidates(orders))
    {
      var l := Link(orders[i].id, closure, orders[i].content);
      assert orders[i] in orders;
      CandidatesAre(orders, l);
      assert ClosureOf(l) == closure;
    }
  }

  lemma {:induction false} CandidatesDistinct(orders: seq<Order>)
    ensures DistinctKeys(ClosureOf, Candidates(orders)) <==> OneOrderPerClosure(orders)
  {
    if orders != [] {
      var front, o := orders[..|orders| - 1], orders[|orders| - 1];
      assert orders == front + [o];
      CandidatesDistinct(front);
      OneOrderPerClosureStep(front, o);
      if o.closure.Some? {
        DistinctOneMore(ClosureOf, Candidates(front), Link(o.id, o.closure.value, o.content));
        ClosureListed(front, o.closure.value);
      } else {
        assert Candidates(orders) == Candidates(front);
      }
    }
  }

  /** The insert with `ON CONFLICT DO NOTHING`. */
  method LinkOrders(orders: seq<Order>) returns (links: seq<Link>)
    ensures links == StoreAll(ClosureOf, [], Candidates(orders))
  {
    links := [];
    var taken: set<Id> := {};
    var i := 0;
    while i < |orders|
      invariant i <= |orders|
      invariant links == StoreAll(ClosureOf, [], Candidates(orders[..i]))
      invariant taken == Keys(ClosureOf, links)
    {
      var o := orders[i];
      assert orders[..i + 1][..i] == orders[..i];
      if o.closure.Some? {
        var link := Link(o.id, o.closure.value, o.content);
        StoreAllOneMore(ClosureOf, [], Candidates(orders[..i]), link);
        KeysOneMore(ClosureOf, links, link);
        if o.closure.value !in taken {
          links := links + [link];
          taken := taken + {o.closure.value};
        }
      } else {
        assert Candidates(orders[..i + 1]) == Candidates(orders[..i]);
      }
      i := i + 1;
    }
    assert orders[..i] == orders;
  }

  /**
   The links are what the selected orders are, one for one and in their order, exactly when no shift
   closure has two orders; otherwise the conflict clause drops some. Every closure is linked anyway.
   */
  lemma LinksMatchOrders(orders: seq<Order>)
    ensures var links := StoreAll(ClosureOf, [], Candidates(orders));
            && (links == Candidates(orders) <==> OneOrderPerClosure(orders))
            && DistinctKeys(ClosureOf, links)
            && (forall i | 0 <= i < |orders| && orders[i].closure.Some? ::
                  orders[i].closure.value in Keys(ClosureOf, links))
  {
    AllStoredIffDistinct(ClosureOf, Candidates(orders));
    CandidatesDistinct(orders);
    StoredDistinct(ClosureOf, Candidates(orders));
    StoredKeys(ClosureOf, Candidates(orders));
    forall i | 0 <= i < |orders| && orders[i].closure.Some?
      ensures orders[i].closure.value in Keys(ClosureOf, Candidates(orders))
    {
      ClosureListed(orders, orders[i].closure.value);
    }
  }

  // ----- Subscriptions -----

  datatype Membership = Membership(company: Id, status: string, trialStart: Option<int>, trialEnd: Option<int>)

  datatype Subscription = Subscription(
    company: Id, status: string, periodStart: Option<int>, periodEnd: Option<int>, trialStart: Option<int>,
    trialEnd: Option<int>)

  const SUBSCRIPTION_STATUSES := {"incomplete", "trialing", "active", "past_due", "paused", "cancelled"}

  function SubscriptionStatus(membership: string): (status: string)
    ensures status in SUBSCRIPTION_STATUSES
    ensures status == "active" <==> membership == "active"
    ensures status == "trialing" <==> membership == "trial_active"
    ensures status == "incomplete" <==> membership == "pending_verification"
    ensures status == "cancelled" <==> membership == "cancelled"
    ensures status == "paused" <==>
            membership !in {"active", "trial_active", "pending_verification", "cancelled"}
  {
    if membership == "pending_verification" then "incomplete"
    else if membership == "trial_active" then "trialing"
    else if membership == "active" then "active"
    else if membership == "cancelled" then "cancelled"
    else "paused"
  }

  function Subscribe(m: Membership): Subscription {
    Subscription(m.company, SubscriptionStatus(m.status), m.trialStart, m.trialEnd, m.trialStart, m.trialEnd)
  }

  predicate InOrder(start: Option<int>, end: Option<int>) {
    end.None? || start.None? || end.value > start.value
  }

  /** The three checks of the new table. */
  predicate ChecksHold(s: Subscription) {
    s.status in SUBSCRIPTION_STATUSES && InOrder(s.periodStart, s.periodEnd) && InOrder(s.trialStart, s.trialEnd)
  }

  datatype InsertError = CheckViolation | DuplicateCompany

  ghost predicate OneMembershipPerCompany(memberships: seq<Membership>) {
    forall i, j | 0 <= i < j < |memberships| :: memberships[i].company != memberships[j].company
  }

  /**
   The insert succeeds exactly when every trial ends after it starts and no company has two
   memberships; it then leaves one legal subscription per membership.
   */
  method InsertSubscriptions(memberships: seq<Membership>) returns (r: Result<seq<Subscription>, InsertError>)
    ensures r.Ok? <==>
            && (forall i, j | 0 <= i < j < |memberships| :: memberships[i].company != memberships[j].company)
            && (forall i | 0 <= i < |memberships| && memberships[i].trialStart.Some? && memberships[i].trialEnd.Some? ::
                  memberships[i].trialStart.value < memberships[i].trialEnd.value)
    ensures r.Ok? ==> |r.value| == |memberships| && forall i | 0 <= i < |memberships| ::
              && r.value[i].company == memberships[i].company
              && r.value[i].status == SubscriptionStatus(memberships[i].status)
              && r.value[i].periodStart == r.value[i].trialStart == memberships[i].trialStart
              && r.value[i].periodEnd == r.value[i].trialEnd == memberships[i].trialEnd
    ensures r.Ok? ==> forall i, j | 0 <= i < j < |memberships| :: r.value[i].company != r.value[j].company
  {
    var subscriptions: seq<Subscription> := [];
    var companies: set<Id> := {};
    var i := 0;
    while i < |memberships|
      invariant i <= |memberships|
      invariant subscriptions == seq(i, k requires 0 <= k < i => Subscribe(memberships[k]))
      invariant forall c :: c in companies <==> exists k | 0 <= k < i :: memberships[k].company == c
      invariant OneMembershipPerCompany(memberships[..i])
      invariant forall k | 0 <= k < i :: InOrder(memberships[k].trialStart, memberships[k].trialEnd)
    {
      var row := Subscribe(memberships[i]);
      if !ChecksHold(row) { return Err(CheckViolation); }
      if row.company in companies { return Err(DuplicateCompany); }
      assert memberships[..i + 1] == memberships[..i] + [memberships[i]];
      subscriptions := subscriptions + [row];
      companies := companies + {row.company};
      i := i + 1;
    }
    assert memberships[..i] == memberships;
    r := Ok(subscriptions);
  }
}
