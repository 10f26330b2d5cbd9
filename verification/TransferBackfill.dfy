/** The migration that derives what a transfer was short of, in four ordered updates. */
module TransferBackfill {
  import opened Wrappers

  type Id = nat

  datatype Transfer = Transfer(
    status: string, completedAt: Option<int>,
    lastReceivedAt: Option<int>, hasDiscrepancy: bool, postedAtShip: bool)

  datatype Item = Item(transfer: Id, sent: Option<real>, received: Option<real>, discrepancy: real)

  function Coalesce(quantity: Option<real>): real {
    if quantity.Some? then quantity.value else 0.0
  }

  /** `GREATEST(sent - received, 0)`, nulls counting as 0 */
  function Shortfall(item: Item): real {
    var missing := Coalesce(item.sent) - Coalesce(item.received);
    if missing > 0.0 then missing else 0.0
  }

  predicate Completed(transfers: map<Id, Transfer>, t: Id) {
    t in transfers && transfers[t].status == "completed"
  }

  function DeriveShortfalls(transfers: map<Id, Transfer>, items: map<Id, Item>): map<Id, Item> {
    map i | i in items ::
      if Completed(transfers, items[i].transfer) then items[i].(discrepancy := Shortfall(items[i])) else items[i]
  }

  predicate HasShortItem(items: map<Id, Item>, t: Id) {
    exists i | i in items :: items[i].transfer == t && items[i].discrepancy > 0.0
  }

  function FlagTransfers(transfers: map<Id, Transfer>, items: map<Id, Item>): map<Id, Transfer> {
    map t | t in transfers ::
      if transfers[t].status == "completed"
      then transfers[t].(hasDiscrepancy := HasShortItem(items, t))
      else transfers[t]
  }

  /** The smallest quantity that is not negative and not less than `sent - received`. */
  predicate Covers(d: real, sent: real, received: real) {
    d >= 0.0 && d >= sent - received && (d == 0.0 || d == sent - received)
  }

  /** `d` is what the item lacks; a quantity that is not known was neither sent nor received. */
  predicate Lacks(item: Item, d: real) {
    match item.sent
    case Some(sent) =>
      (match item.received case Some(received) => Covers(d, sent, received) case None => Covers(d, sent, 0.0))
    case None =>
      (match item.received case Some(received) => Covers(d, 0.0, received) case None => d == 0.0)
  }

  /** More of the item was sent than received. */
  predicate ShortItem(item: Item) {
    match item.sent
    case Some(sent) => (match item.received case Some(received) => sent > received case None => sent > 0.0)
    case None => (match item.received case Some(received) => received < 0.0 case None => false)
  }

  /** Some item of the transfer is short. */
  ghost predicate Short(items: map<Id, Item>, t: Id) {
    exists i | i in items :: items[i].transfer == t && ShortItem(items[i])
  }

  /** The order matters: flagged before the shortfalls are derived, no transfer would ever be flagged. */
  lemma FlagsNeedShortfallsFirst(transfers: map<Id, Transfer>, items: map<Id, Item>, t: Id)
    requires t in transfers && transfers[t].status == "completed" && !transfers[t].hasDiscrepancy
    requires forall i | i in items :: items[i].discrepancy == 0.0
    ensures !FlagTransfers(transfers, items)[t].hasDiscrepancy
    ensures FlagTransfers(transfers, DeriveShortfalls(transfers, items))[t].hasDiscrepancy <==> Short(items, t)
  {
    var derived := DeriveShortfalls(transfers, items);
    if Short(items, t) {
      var i :| i in items && items[i].transfer == t && ShortItem(items[i]);
      assert derived[i].transfer == t && derived[i].discrepancy > 0.0;
    }
  }

  function MarkShipped(transfers: map<Id, Transfer>): map<Id, Transfer> {
    map t | t in transfers ::
      if transfers[t].status == "in_transit" then transfers[t].(postedAtShip := true) else transfers[t]
  }

  function CopyCompletion(transfers: map<Id, Transfer>): map<Id, Transfer> {
    map t | t in transfers ::
      if transfers[t].completedAt.Some? then transfers[t].(lastReceivedAt := transfers[t].completedAt) else transfers[t]
  }

  predicate NewColumnsEmpty(transfers: map<Id, Transfer>, items: map<Id, Item>) {
    && (forall t | t in transfers ::
          transfers[t].lastReceivedAt.None? && !transfers[t].hasDiscrepancy && !transfers[t].postedAtShip)
    && (forall i | i in items :: items[i].discrepancy == 0.0)
  }

  lemma ShortfallLacks(item: Item)
    ensures Lacks(item, Shortfall(item))
  {
  }

  /** What the four updates make of every row, in terms of what was there before. */
  lemma UpdatesDerive(transfers: map<Id, Transfer>, items: map<Id, Item>)
    requires NewColumnsEmpty(transfers, items)
    ensures var dated := CopyCompletion(MarkShipped(transfers));
            var derived := DeriveShortfalls(dated, items);
            var flagged := FlagTransfers(dated, derived);
            && derived.Keys == items.Keys && flagged.Keys == transfers.Keys
            && (forall i | i in items ::
                  && derived[i] == items[i].(discrepancy := derived[i].discrepancy)
                  && if items[i].transfer in transfers && transfers[items[i].transfer].status == "completed"
                     then Lacks(items[i], derived[i].discrepancy) else derived[i].discrepancy == 0.0)
            && (forall t | t in transfers ::
                  && flagged[t] == Transfer(transfers[t].status, transfers[t].completedAt, transfers[t].completedAt,
                                            flagged[t].hasDiscrepancy, transfers[t].status == "in_transit")
                  && (flagged[t].hasDiscrepancy <==> transfers[t].status == "completed" && Short(items, t)))
  {
    hide ShortItem, Lacks, Shortfall;
    var dated := CopyCompletion(MarkShipped(transfers));
    assert forall t | t in transfers :: dated[t].status == transfers[t].status;
    forall i | i in items ensures Lacks(items[i], Shortfall(items[i])) { ShortfallLacks(items[i]); }
    forall t | t in transfers && transfers[t].status == "completed" {
      FlagsNeedShortfallsFirst(dated, items, t);
    }
  }

  class Tables {
    var transfers: map<Id, Transfer>
    var items: map<Id, Item>

    constructor (transfers: map<Id, Transfer>, items: map<Id, Item>)
      ensures this.transfers == transfers && this.items == items
    {
      this.transfers, this.items := transfers, items;
    }

    /** `upgrade`, on tables whose new columns hold their defaults. */
    method Upgrade()
      requires NewColumnsEmpty(transfers, items)
      modifies this
      ensures transfers.Keys == old(transfers.Keys) && items.Keys == old(items.Keys)
      ensures forall t | t in transfers ::
                var before, after := old(transfers)[t], transfers[t];
                && after.status == before.status && after.completedAt == before.completedAt == after.lastReceivedAt
                && (after.postedAtShip <==> before.status == "in_transit")
                && (after.hasDiscrepancy <==> before.status == "completed" && Short(old(items), t))
      ensures forall i | i in items ::
                var before, after := old(items)[i], items[i];
                && after == before.(discrepancy := after.discrepancy)
                && if before.transfer in old(transfers) && old(transfers)[before.transfer].status == "completed"
                   then Lacks(before, after.discrepancy) else after.discrepancy == 0.0
    {
      UpdatesDerive(transfers, items);
      transfers := MarkShipped(transfers);
      transfers := CopyCompletion(transfers);
      items := DeriveShortfalls(transfers, items);
      transfers := FlagTransfers(transfers, items);
    }
  }
}
