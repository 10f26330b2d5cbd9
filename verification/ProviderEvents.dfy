/** The append-only table of provider refund events, for any sequence of inserts. */
module ProviderEvents {
  import opened UniqueTable

  datatype Event = Event(provider: string, eventId: string, payload: string)

  function KeyOf(e: Event): (string, string) {
    (e.provider, e.eventId)
  }

  // ----- The table -----

  /** The log is exactly the first delivery of each event, in the order they came, and replays leave it alone. */
  lemma LogIsFirstDeliveries(deliveries: seq<Event>, replays: seq<Event>, i: nat)
    requires i < |deliveries|
    ensures StoreAll(KeyOf, [], deliveries) == Pick(deliveries, FirstPositions(KeyOf, deliveries))
    ensures i in FirstPositions(KeyOf, deliveries) <==>
            forall j | 0 <= j < i :: KeyOf(deliveries[j]) != KeyOf(deliveries[i])
    ensures StoreAll(KeyOf, [], deliveries) <= StoreAll(KeyOf, StoreAll(KeyOf, [], deliveries), replays)
    ensures StoreAll(KeyOf, StoreAll(KeyOf, [], deliveries), replays) == StoreAll(KeyOf, [], deliveries) <==>
            Keys(KeyOf, replays) <= Keys(KeyOf, deliveries)
  {
    StoresFirstInputs(KeyOf, deliveries);
    FirstPositionsAreFirst(KeyOf, deliveries, i);
    Grows(KeyOf, StoreAll(KeyOf, [], deliveries), replays);
    ReplaysChangeNothing(KeyOf, StoreAll(KeyOf, [], deliveries), replays);
    StoredKeys(KeyOf, deliveries);
  }

  /** A statement on the table; an update or delete reaches the rows at these positions. */
  datatype Change = Insert(event: Event) | Mutate(matching: set<nat>)

  function Inserts(changes: seq<Change>): seq<Event> {
    if changes == [] then []
    else
      var earlier, last := Inserts(changes[..|changes| - 1]), changes[|changes| - 1];
      if last.Insert? then earlier + [last.event] else earlier
  }

  // ----- The rows -----

  class EventTable {
    var rows: seq<Event>

    constructor ()
      ensures rows == []
    {
      rows := [];
    }

    /** Where the unique index finds a key, or the number of rows when it does not. */
    method Find(key: (string, string)) returns (index: nat)
      ensures index <= |rows|
      ensures index < |rows| ==> KeyOf(rows[index]) == key && key in Keys(KeyOf, rows)
      ensures index == |rows| ==> key !in Keys(KeyOf, rows)
    {
      index := 0;
      while index < |rows|
        invariant index <= |rows|
        invariant key !in Keys(KeyOf, rows[..index])
      {
        if KeyOf(rows[index]) == key {
          assert rows[index] in rows;
          return;
        }
        KeysOneMore(KeyOf, rows[..index], rows[index]);
        assert rows[..index + 1] == rows[..index] + [rows[index]];
        index := index + 1;
      }
      assert rows[..|rows|] == rows;
    }

    /** `INSERT` under the unique key */
    method Insert(e: Event) returns (accepted: bool)
      modifies this`rows
      ensures rows == Store(KeyOf, old(rows), e)
      ensures accepted <==> KeyOf(e) !in Keys(KeyOf, old(rows))
    {
      var index := Find(KeyOf(e));
      accepted := index == |rows|;
      if accepted { rows := rows + [e]; }
    }

    /** `UPDATE` or `DELETE`: the append-only trigger fires for every row the statement reaches. */
    method Mutate(matching: set<nat>) returns (accepted: bool)
      ensures rows == old(rows)
      ensures accepted <==> forall i | i in matching :: i >= |rows|
    {
      accepted := forall i | i in matching :: i >= |rows|;
    }

    /** A whole sequence of statements: what stands in the table is what the inserts alone leave there. */
    method Execute(changes: seq<Change>)
      modifies this
      ensures rows == StoreAll(KeyOf, old(rows), Inserts(changes))
    {
      var i := 0;
      while i < |changes|
        invariant i <= |changes|
        invariant rows == StoreAll(KeyOf, old(rows), Inserts(changes[..i]))
      {
        assert changes[..i + 1][..i] == changes[..i];
        match changes[i] {
          case Insert(e) =>
            StoreAllOneMore(KeyOf, old(rows), Inserts(changes[..i]), e);
            var accepted := Insert(e);
          case Mutate(matching) =>
            var accepted := Mutate(matching);
        }
        i := i + 1;
      }
      assert changes[..i] == changes;
    }
  }
}
