/**
 * The stored event rows alone rebuild the book: sorted by command and position, the rows of a live worker's
 * ticker fold to exactly the orders resting on its book.
 */
module Rebuild {
  import opened Models
  import opened Numeric
  import opened FlatBook
  import opened Matching
  import opened Journal
  import opened OrderEvents
  import opened Execution
  import opened BookLaws
  import opened Batches
  import opened Lifecycle
  import opened Stores
  import opened JournalStores
  import opened Runs
  import opened RowIdentity
  import opened Protocol
  import opened Recovery

  /** The order of the event table: by command sequence, then by position in the command's batch. */
  predicate Earlier(a: Event, b: Event) {
    a.commandSequence < b.commandSequence || (a.commandSequence == b.commandSequence && a.eventIndex < b.eventIndex)
  }

  ghost predicate InOrder(events: seq<Event>) {
    forall i, j :: 0 <= i < j < |events| ==> Earlier(events[i], events[j])
  }

  /** The rows of a table, every one of them, in order. */
  ghost predicate Lists(rows: seq<Event>, table: map<EventID, Event>) {
    && InOrder(rows)
    && (forall e :: e in rows ==> e.eventID in table && table[e.eventID] == e)
    && (forall k :: k in table ==> table[k] in rows)
  }

  // ----- the events of a run are in order -----

  lemma BatchInOrder(c: Command, changes: seq<Change>)
    requires AllValid(Stamped(c, changes))
    ensures InOrder(Stamped(c, changes)) && forall e :: e in Stamped(c, changes) ==> e.commandSequence == c.sequence
  {
    hide ValidEvent;
    ValidBatchNumbered(c, changes);
  }

  lemma InOrderConcat(a: seq<Event>, b: seq<Event>, limit: int)
    requires InOrder(a) && InOrder(b)
    requires (forall e :: e in a ==> e.commandSequence <= limit) && (forall e :: e in b ==> e.commandSequence > limit)
    ensures InOrder(a + b)
  {
    forall i, j | 0 <= i < j < |a + b| ensures Earlier((a + b)[i], (a + b)[j]) {
      if i < |a| <= j {
        assert (a + b)[i] in a && (a + b)[j] in b;
      }
    }
  }

  lemma AdvanceInOrder(m: Market, r: Run, c: Command, limit: int)
    requires InOrder(r.events) && (forall e :: e in r.events ==> e.commandSequence <= limit) && limit < c.sequence
    ensures var next := Advance(m, r, c);
            InOrder(next.events) && forall e :: e in next.events ==> e.commandSequence <= c.sequence
  {
    hide PlanCommand, LogRows, EventRows, Stamped, AllValid, InOrder;
    var plan := PlanCommand(m, r.book, c);
    if plan.Planned? {
      StoredEventsValid(EventsOf(plan));
      PlannedCommand(m, r.book, c);
      if AllValid(EventsOf(plan)) {
        BatchInOrder(plan.command, plan.changes);
        InOrderConcat(r.events, EventsOf(plan), limit);
      }
    }
  }

  lemma {:induction false} RunInOrder(m: Market, cmds: seq<Command>)
    requires forall i, k :: 0 <= i < k < |cmds| ==> cmds[i].sequence < cmds[k].sequence
    ensures InOrder(Replayed(m, cmds).events)
    ensures cmds != [] ==> forall e :: e in Replayed(m, cmds).events ==> e.commandSequence <= cmds[|cmds| - 1].sequence
    decreases |cmds|
  {
    hide Advance, InOrder;
    if cmds == [] {
      NothingInOrder();
    } else {
      var n := |cmds| - 1;
      RunInOrder(m, cmds[..n]);
      NothingReplayed(m);
      AdvanceInOrder(m, Replayed(m, cmds[..n]), cmds[n], if n == 0 then cmds[n].sequence - 1 else cmds[n - 1].sequence);
    }
  }

  lemma NothingInOrder()
    ensures InOrder([])
  {
  }

  lemma NothingReplayed(m: Market)
    ensures Replayed(m, []).events == []
  {
  }

  // ----- a listing is determined by its table -----

  lemma InOrderTail(events: seq<Event>)
    requires events != [] && InOrder(events)
    ensures InOrder(events[1..]) && forall e :: e in events[1..] ==> Earlier(events[0], e)
  {
    forall i, j | 0 <= i < j < |events[1..]| ensures Earlier(events[1..][i], events[1..][j]) {
      assert Earlier(events[i + 1], events[j + 1]);
    }
    forall e | e in events[1..] ensures Earlier(events[0], e) {
      var i :| 0 <= i < |events[1..]| && events[1..][i] == e;
      assert Earlier(events[0], events[i + 1]);
    }
  }

  lemma FirstEvent(events: seq<Event>)
    ensures events != [] ==> events[0] in events
    ensures events != [] ==> forall e :: e in events <==> e == events[0] || e in events[1..]
  {
  }

  lemma {:induction false} SameRows(a: seq<Event>, b: seq<Event>)
    requires InOrder(a) && InOrder(b) && forall e :: e in a <==> e in b
    ensures a == b
    decreases |a|
  {
    hide InOrder, Earlier;
    FirstEvent(a);
    FirstEvent(b);
    if a != [] {
      InOrderTail(a);
      InOrderTail(b);
      NotBoth(a[0], b[0]);
      NotBoth(a[0], a[0]);
      SameRows(a[1..], b[1..]);
    }
  }

  lemma NotBoth(a: Event, b: Event)
    ensures !(Earlier(a, b) && Earlier(b, a))
  {
  }

  // ----- the fold -----

  function AllStored(events: seq<Event>): (rows: seq<Event>)
    ensures |rows| == |events|
    ensures forall i :: 0 <= i < |rows| ==> rows[i] == StoredEvent(events[i])
  {
    if events == [] then [] else [StoredEvent(events[0])] + AllStored(events[1..])
  }

  /** The version of a row has no part in the fold. */
  lemma {:induction false} ProjectStored(lives: Lives, events: seq<Event>)
    ensures Project(lives, AllStored(events)) == Project(lives, events)
    decreases |events|
  {
    if events != [] {
      assert AllStored(events)[1..] == AllStored(events[1..]);
      var next := ApplyEvent(lives, events[0]);
      assert ApplyEvent(lives, AllStored(events)[0]) == next;
      if next.Some? {
        ProjectStored(next.value, events[1..]);
      }
    }
  }

  lemma StoredInOrder(events: seq<Event>)
    requires InOrder(events)
    ensures InOrder(AllStored(events))
  {
    var rows := AllStored(events);
    forall i, j | 0 <= i < j < |rows| ensures Earlier(rows[i], rows[j]) {
      assert Earlier(events[i], events[j]);
    }
  }

  /** The table holds what is stored of some events, and nothing else. */
  ghost predicate HoldsOnly(table: map<EventID, Event>, events: seq<Event>) {
    && (forall e :: e in events ==> e.eventID in table && table[e.eventID] == StoredEvent(e))
    && (forall k :: k in table ==> exists e :: e in events && e.eventID == k)
  }

  lemma RowIsStored(events: seq<Event>, table: map<EventID, Event>, row: Event)
    requires HoldsOnly(table, events) && row in AllStored(events)
    ensures row.eventID in table && table[row.eventID] == row
  {
    var i :| 0 <= i < |events| && AllStored(events)[i] == row;
    assert events[i] in events;
  }

  lemma StoredIsRow(events: seq<Event>, table: map<EventID, Event>, k: EventID)
    requires HoldsOnly(table, events) && k in table
    ensures table[k] in AllStored(events)
  {
    var x :| x in events && x.eventID == k;
    var i :| 0 <= i < |events| && events[i] == x;
    assert AllStored(events)[i] == table[k];
  }

  /** A table that holds what is stored of some events, and nothing else, lists just that. */
  lemma ListingOf(events: seq<Event>, table: map<EventID, Event>, rows: seq<Event>)
    requires InOrder(events) && Lists(rows, table) && HoldsOnly(table, events)
    ensures rows == AllStored(events)
  {
    hide InOrder, StoredEvent, AllStored, HoldsOnly;
    StoredInOrder(events);
    forall e | e in rows ensures e in AllStored(events) {
      StoredIsRow(events, table, e.eventID);
    }
    forall e | e in AllStored(events) ensures e in rows {
      RowIsStored(events, table, e);
    }
    SameRows(rows, AllStored(events));
  }

  /** What the table of a journal lists is its run's events as stored. */
  lemma ListedIsStored(m: Market, cmds: seq<Command>, rows: seq<Event>)
    requires Identified(cmds) && Lists(rows, EventTable(m, cmds))
    requires forall i, k :: 0 <= i < k < |cmds| ==> cmds[i].sequence < cmds[k].sequence
    ensures rows == AllStored(Replayed(m, cmds).events)
  {
    hide Identified, EventTable, LogTable, Replayed, InOrder, Lists, StoredEvent, AllStored, StoredLog;
    TablesExact(m, cmds);
    RunInOrder(m, cmds);
    ListingOf(Replayed(m, cmds).events, EventTable(m, cmds), rows);
  }

  lemma ListingIs(events: seq<Event>, table: map<EventID, Event>)
    requires InOrder(events) && HoldsOnly(table, events)
    ensures Lists(AllStored(events), table)
  {
    hide InOrder, StoredEvent, AllStored, HoldsOnly;
    StoredInOrder(events);
    forall e | e in AllStored(events) ensures e.eventID in table && table[e.eventID] == e {
      RowIsStored(events, table, e);
    }
    forall k | k in table ensures table[k] in AllStored(events) {
      StoredIsRow(events, table, k);
    }
  }

  /** Such a listing always exists. */
  lemma ListingExists(m: Market, cmds: seq<Command>)
    requires Identified(cmds) && forall i, k :: 0 <= i < k < |cmds| ==> cmds[i].sequence < cmds[k].sequence
    ensures Lists(AllStored(Replayed(m, cmds).events), EventTable(m, cmds))
  {
    hide Identified, EventTable, LogTable, Replayed, InOrder, StoredEvent, StoredLog, Lists, AllStored;
    TablesExact(m, cmds);
    RunInOrder(m, cmds);
    ListingIs(Replayed(m, cmds).events, EventTable(m, cmds));
  }

  /**
   * The stored event rows of a live worker's ticker, in the order of their commands and positions, fold
   * from the created orders to exactly the orders resting on its book, with their prices and amounts.
   */
  lemma RowsRebuildBook(m: Market, s: Sys, rows: seq<Event>)
    requires Lists(rows, OwnEvents(m, s.tables))
    ensures Inv(m, s) && s.live && DistinctTakers(JournalOf(m, s)) && FreshIDs(JournalOf(m, s)) ==>
              var lives := Project(Births(JournalOf(m, s)), rows);
              lives.Some? && Mirrors(lives.value, s.book, {})
  {
    hide SoundBook, Mirrors, Project, FreshIDs, DistinctTakers, Replayed, Lists, EventTable, LogTable, OwnEvents, OwnLogs, JournalOK, NothingElse, Births, TickerRows;
    if Inv(m, s) && s.live && DistinctTakers(JournalOf(m, s)) && FreshIDs(JournalOf(m, s)) {
      var cmds := JournalOf(m, s);
      JournalIdentified(m, s);
      LiveBookIsSound(m, s);
      ListedIsStored(m, cmds, rows);
      ProjectStored(Births(cmds), Replayed(m, cmds).events);
    }
  }
}
