/** No two executions and no two events of a run share an identity, so their tables hold one row each. */
module RowIdentity {
  import opened Models
  import opened Numeric
  import opened FlatBook
  import opened Matching
  import opened MatchingLaws
  import opened Journal
  import opened OrderEvents
  import opened Execution
  import opened BookLaws
  import opened Batches
  import opened Stores
  import opened JournalStores
  import opened Runs

  datatype TakerKey = TakerKey(id: OrderID, time: Time)

  /** The order a command may send into matching, with the time that goes into its execution ids. */
  function TakerOf(c: Command): Option<TakerKey> {
    match c.kind
    case CreateCommand => if c.create.Some? then Some(TakerKey(GenerateOrderID(c.create.value), c.recordedAt)) else None
    case AmendCommand => if c.amend.Some? then Some(TakerKey(c.amend.value.orderID, c.recordedAt)) else None
    case CancelCommand => None
  }

  /** The assumption on recorded times: commands that send the same order into matching differ in time. */
  ghost predicate DistinctTakers(cmds: seq<Command>) {
    forall i, k :: 0 <= i < k < |cmds| && TakerOf(cmds[i]).Some? ==> TakerOf(cmds[i]) != TakerOf(cmds[k])
  }

  function KeyOf(id: ExecutionID): TakerKey {
    TakerKey(id.takerOrderID, id.matchedAt)
  }

  // ----- one command -----

  lemma PlanLogKeys(m: Market, b: Book, c: Command)
    requires PlanCommand(m, b, c).Planned?
    ensures var logs := PlanCommand(m, b, c).logs;
            forall i :: 0 <= i < |logs| ==>
              && TakerOf(c) == Some(KeyOf(logs[i].executionID))
              && logs[i].executionID.sequence == i && logs[i].executionID.ticker == m.ticker
  {
    match c.kind
    case CreateCommand =>
      var order := CreateOrderAt(c.create.value, c.recordedAt);
      LogsNumbered(m.precision, m.ticker, b.On(order.side.Opposite()), order, 0);
    case AmendCommand =>
      var edit := EditOf(b, c.amend.value, c.recordedAt);
      if edit.Some? && edit.value.requiresRematch {
        var e := edit.value;
        LookupNames(b, c.amend.value.orderID);
        LogsNumbered(m.precision, m.ticker, ApplyEdit(b, e).On(e.after.side.Opposite()), e.after, 0);
      }
    case CancelCommand =>
  }

  lemma LookupNames(b: Book, id: OrderID)
    ensures Lookup(b, id).Some? ==> Lookup(b, id).value.id == id
  {
    FindNames(b.bids, id);
    FindNames(b.asks, id);
  }

  lemma FindNames(s: seq<Order>, id: OrderID)
    ensures Find(s, id).Some? ==> Find(s, id).value.id == id
  {
  }

  lemma PlanEventKeys(m: Market, b: Book, c: Command)
    requires PlanCommand(m, b, c).Planned? && AllValid(EventsOf(PlanCommand(m, b, c)))
    ensures var events := EventsOf(PlanCommand(m, b, c));
            forall i :: 0 <= i < |events| ==>
              && events[i].eventID.commandID == c.commandID && events[i].eventID.eventIndex == i
              && events[i].eventID.ticker == c.ticker
  {
    var plan := PlanCommand(m, b, c);
    PlannedCommand(m, b, c);
    ValidBatchNumbered(plan.command, plan.changes);
  }

  // ----- whole runs -----

  ghost predicate HasTaker(cmds: seq<Command>, key: TakerKey) {
    exists k :: 0 <= k < |cmds| && TakerOf(cmds[k]) == Some(key)
  }

  ghost predicate HasIssuer(cmds: seq<Command>, e: Event) {
    exists k :: 0 <= k < |cmds| && IssuedBy(cmds[k], e)
  }

  ghost predicate LogsIdentified(cmds: seq<Command>, ticker: string, logs: seq<MatchLog>) {
    && (forall i :: 0 <= i < |logs| ==>
          logs[i].executionID.ticker == ticker && HasTaker(cmds, KeyOf(logs[i].executionID)))
    && (forall i, j :: 0 <= i < j < |logs| ==> logs[i].executionID != logs[j].executionID)
  }

  predicate IssuedBy(c: Command, e: Event) {
    c.commandID == e.eventID.commandID && c.ticker == e.eventID.ticker
  }

  ghost predicate EventsIdentified(cmds: seq<Command>, events: seq<Event>) {
    && (forall i :: 0 <= i < |events| ==> HasIssuer(cmds, events[i]))
    && (forall i, j :: 0 <= i < j < |events| ==> events[i].eventID != events[j].eventID)
  }

  /** Every execution of a run has its own id, and so has every event. */
  lemma {:induction false} RunRowsIdentified(m: Market, cmds: seq<Command>)
    requires DistinctTakers(cmds) && UniqueIDs(cmds)
    ensures LogsIdentified(cmds, m.ticker, Replayed(m, cmds).logs)
    ensures EventsIdentified(cmds, Replayed(m, cmds).events)
    decreases |cmds|
  {
    if cmds != [] {
      var n := |cmds| - 1;
      var front := cmds[..n];
      var r := Replayed(m, front);
      RunRowsIdentified(m, front);
      if r.ok && PlanCommand(m, r.book, cmds[n]).Planned? {
        var plan := PlanCommand(m, r.book, cmds[n]);
        PlanLogKeys(m, r.book, cmds[n]);
        StoredEventsValid(EventsOf(plan));
        if AllValid(EventsOf(plan)) {
          PlanEventKeys(m, r.book, cmds[n]);
        }
        hide PlanCommand, LogsIdentified, EventsIdentified, AllValid;
        LogsExtended(cmds, m.ticker, r.logs, plan.logs);
        if AllValid(EventsOf(plan)) {
          EventsExtended(cmds, r.events, EventsOf(plan));
        }
      }
      MoreCommands(cmds, m.ticker, r.logs, r.events);
    }
  }

  lemma MoreCommands(cmds: seq<Command>, ticker: string, logs: seq<MatchLog>, events: seq<Event>)
    requires cmds != []
    requires LogsIdentified(cmds[..|cmds| - 1], ticker, logs) && EventsIdentified(cmds[..|cmds| - 1], events)
    ensures LogsIdentified(cmds, ticker, logs) && EventsIdentified(cmds, events)
  {
    var front := cmds[..|cmds| - 1];
    forall i | 0 <= i < |logs| ensures HasTaker(cmds, KeyOf(logs[i].executionID)) {
      var k :| 0 <= k < |front| && TakerOf(front[k]) == Some(KeyOf(logs[i].executionID));
      assert cmds[k] == front[k];
    }
    forall i | 0 <= i < |events| ensures HasIssuer(cmds, events[i]) {
      assert HasIssuer(front, events[i]);
      var k :| 0 <= k < |front| && IssuedBy(front[k], events[i]);
      assert cmds[k] == front[k];
    }
  }

  lemma LogsExtended(cmds: seq<Command>, ticker: string, logs: seq<MatchLog>, more: seq<MatchLog>)
    requires cmds != [] && DistinctTakers(cmds) && LogsIdentified(cmds[..|cmds| - 1], ticker, logs)
    requires forall i :: 0 <= i < |more| ==>
               && TakerOf(cmds[|cmds| - 1]) == Some(KeyOf(more[i].executionID))
               && more[i].executionID.sequence == i && more[i].executionID.ticker == ticker
    ensures LogsIdentified(cmds, ticker, logs + more)
  {
    var n := |cmds| - 1;
    var all := logs + more;
    MoreCommands(cmds, ticker, logs, []);
    forall i | 0 <= i < |all|
      ensures all[i].executionID.ticker == ticker && HasTaker(cmds, KeyOf(all[i].executionID))
    {
      if i >= |logs| {
        assert TakerOf(cmds[n]) == Some(KeyOf(all[i].executionID));
      }
    }
    forall i, j | 0 <= i < j < |all| ensures all[i].executionID != all[j].executionID {
      if i < |logs| <= j {
        assert HasTaker(cmds[..n], KeyOf(logs[i].executionID));
        var k :| 0 <= k < n && TakerOf(cmds[..n][k]) == Some(KeyOf(logs[i].executionID));
        assert TakerOf(cmds[k]) != TakerOf(cmds[n]);
      }
    }
  }

  lemma EventsExtended(cmds: seq<Command>, events: seq<Event>, more: seq<Event>)
    requires cmds != [] && UniqueIDs(cmds) && EventsIdentified(cmds[..|cmds| - 1], events)
    requires forall i :: 0 <= i < |more| ==>
               && more[i].eventID.commandID == cmds[|cmds| - 1].commandID && more[i].eventID.eventIndex == i
               && more[i].eventID.ticker == cmds[|cmds| - 1].ticker
    ensures EventsIdentified(cmds, events + more)
  {
    var n := |cmds| - 1;
    var all := events + more;
    MoreCommands(cmds, "", [], events);
    forall i | 0 <= i < |all|
      ensures HasIssuer(cmds, all[i])
    {
      if i >= |events| {
        assert IssuedBy(cmds[n], all[i]);
      }
    }
    forall i, j | 0 <= i < j < |all| ensures all[i].eventID != all[j].eventID {
      if i < |events| <= j {
        assert HasIssuer(cmds[..n], events[i]);
        var k :| 0 <= k < n && IssuedBy(cmds[..n][k], events[i]);
        assert cmds[k].commandID != cmds[n].commandID;
      }
    }
  }

  // ----- the tables of a run -----

  lemma PrependAssoc<T>(whole: Option<seq<T>>, tail: seq<T>, b: seq<T>)
    requires whole.Some? && whole.value != [] && whole.value[1..] == tail
    ensures Prepend([whole.value[0]], Some(tail + b)) == Some(whole.value + b)
  {
    assert [whole.value[0]] + (tail + b) == whole.value + b;
  }

  lemma {:induction false} LogRowsConcat(a: seq<MatchLog>, b: seq<MatchLog>)
    ensures LogRows(a + b) == if LogRows(a).Some? && LogRows(b).Some? then Some(LogRows(a).value + LogRows(b).value) else None
    decreases |a|
  {
    if a == [] {
      assert a + b == b;
      PrependNothing(LogRows(b));
    } else {
      assert (a + b)[1..] == a[1..] + b;
      LogRowsConcat(a[1..], b);
      if LogParams(a[0]).Some? && LogRows(a[1..]).Some? && LogRows(b).Some? {
        PrependAssoc(LogRows(a), LogRows(a[1..]).value, LogRows(b).value);
      }
    }
  }

  lemma {:induction false} EventRowsConcat(a: seq<Event>, b: seq<Event>)
    ensures EventRows(a + b) == if EventRows(a).Some? && EventRows(b).Some? then Some(EventRows(a).value + EventRows(b).value) else None
    decreases |a|
  {
    if a == [] {
      assert a + b == b;
      PrependNothing(EventRows(b));
    } else {
      assert (a + b)[1..] == a[1..] + b;
      EventRowsConcat(a[1..], b);
      if EventParams(a[0]).Some? && EventRows(a[1..]).Some? && EventRows(b).Some? {
        PrependAssoc(EventRows(a), EventRows(a[1..]).value, EventRows(b).value);
      }
    }
  }

  lemma {:induction false} RunRowsStorable(m: Market, cmds: seq<Command>)
    ensures LogRows(Replayed(m, cmds).logs).Some? && EventRows(Replayed(m, cmds).events).Some?
    decreases |cmds|
  {
    if cmds != [] {
      var n := |cmds| - 1;
      var r := Replayed(m, cmds[..n]);
      RunRowsStorable(m, cmds[..n]);
      var plan := PlanCommand(m, r.book, cmds[n]);
      if plan.Planned? {
        LogRowsConcat(r.logs, plan.logs);
        EventRowsConcat(r.events, EventsOf(plan));
      }
    }
  }

  lemma LogRowKeys(logs: seq<MatchLog>)
    requires LogRows(logs).Some?
    ensures var rows := LogRows(logs).value;
            |rows| == |logs| && forall i :: 0 <= i < |rows| ==> rows[i].key == logs[i].executionID && Some(rows[i].value) == LogParams(logs[i])
  {
    if logs != [] {
      LogRowKeys(logs[1..]);
    }
  }

  lemma EventRowKeys(events: seq<Event>)
    requires EventRows(events).Some?
    ensures var rows := EventRows(events).value;
            |rows| == |events| && forall i :: 0 <= i < |rows| ==> rows[i].key == events[i].eventID && Some(rows[i].value) == EventParams(events[i])
  {
    if events != [] {
      EventRowKeys(events[1..]);
    }
  }

  /** The rows of a run have distinct identities. */
  lemma RunKeysDistinct(m: Market, cmds: seq<Command>)
    requires DistinctTakers(cmds) && UniqueIDs(cmds)
    ensures var r := Replayed(m, cmds);
            && LogRows(r.logs).Some? && DistinctKeys(LogRows(r.logs).value) && |LogRows(r.logs).value| == |r.logs|
            && EventRows(r.events).Some? && DistinctKeys(EventRows(r.events).value) && |EventRows(r.events).value| == |r.events|
  {
    RunRowsIdentified(m, cmds);
    RunRowsStorable(m, cmds);
    LogRowKeys(Replayed(m, cmds).logs);
    EventRowKeys(Replayed(m, cmds).events);
  }

  /** A table built from rows with distinct keys holds every one of them, and nothing else. */
  lemma {:induction false} TableHolds<K, R>(batch: seq<Row<K, R>>)
    requires DistinctKeys(batch)
    ensures |TableOf(batch)| == |batch|
    ensures forall i :: 0 <= i < |batch| ==> batch[i].key in TableOf(batch) && TableOf(batch)[batch[i].key] == batch[i].value
    ensures forall k :: k in TableOf(batch) ==> exists i :: 0 <= i < |batch| && batch[i].key == k
    decreases |batch|
  {
    if batch != [] {
      TableHolds(batch[1..]);
      var rest := TableOf(batch[1..]);
      forall i | 0 < i < |batch| ensures batch[i].key != batch[0].key && batch[i] == batch[1..][i - 1] {
      }
      assert batch[0].key !in rest;
      forall k | k in TableOf(batch) ensures exists i :: 0 <= i < |batch| && batch[i].key == k {
        if k in rest {
          var i :| 0 <= i < |batch[1..]| && batch[1..][i].key == k;
          assert batch[i + 1].key == k;
        }
      }
    }
  }
}
