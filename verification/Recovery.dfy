/**
 * Crash recovery: whatever failed on the way, once a replay completes the stored rows of a ticker are
 * exactly those of applying its whole journal from an empty book, and the book is the one it gives.
 */
module Recovery {
  import opened Models
  import opened Numeric
  import opened FlatBook
  import opened Matching
  import opened Journal
  import opened OrderEvents
  import opened Execution
  import opened BookLaws
  import opened Lifecycle
  import opened Stores
  import opened JournalStores
  import opened Runs
  import opened RowIdentity
  import opened Protocol

  function JournalOf(m: Market, s: Sys): seq<Command> {
    TickerRows(s.journal.rows, m.ticker)
  }

  /** The execution rows a journal calls for. */
  function LogTable(m: Market, cmds: seq<Command>): map<ExecutionID, MatchLog> {
    var rows := LogRows(Replayed(m, cmds).logs);
    if rows.Some? then TableOf(rows.value) else map[]
  }

  function EventTable(m: Market, cmds: seq<Command>): map<EventID, Event> {
    var rows := EventRows(Replayed(m, cmds).events);
    if rows.Some? then TableOf(rows.value) else map[]
  }

  function OwnLogs(m: Market, t: Tables): map<ExecutionID, MatchLog> {
    map k | k in t.logRows && k.ticker == m.ticker :: t.logRows[k]
  }

  function OwnEvents(m: Market, t: Tables): map<EventID, Event> {
    map k | k in t.eventRows && k.ticker == m.ticker :: t.eventRows[k]
  }

  /** Nothing is stored for the ticker but rows its journal calls for. */
  ghost predicate NothingElse(m: Market, t: Tables, cmds: seq<Command>) {
    Within(OwnLogs(m, t), LogTable(m, cmds)) && Within(OwnEvents(m, t), EventTable(m, cmds))
  }

  /** Every row the journal calls for is stored. */
  ghost predicate NothingMissing(m: Market, t: Tables, cmds: seq<Command>) {
    Within(LogTable(m, cmds), OwnLogs(m, t)) && Within(EventTable(m, cmds), OwnEvents(m, t))
  }

  ghost predicate Recovered(m: Market, s: Sys) {
    var r := Replayed(m, JournalOf(m, s));
    r.ok && s.book == r.book && OwnLogs(m, s.tables) == LogTable(m, JournalOf(m, s)) && OwnEvents(m, s.tables) == EventTable(m, JournalOf(m, s))
  }

  ghost predicate Inv(m: Market, s: Sys) {
    && JournalOK(s.journal)
    && NothingElse(m, s.tables, JournalOf(m, s))
    && (s.live ==> Recovered(m, s))
  }

  // ----- a longer journal calls for more rows -----

  lemma {:induction false} RunGrows(m: Market, cmds: seq<Command>, n: nat)
    requires n <= |cmds|
    ensures Replayed(m, cmds[..n]).logs <= Replayed(m, cmds).logs
    ensures Replayed(m, cmds[..n]).events <= Replayed(m, cmds).events
    ensures Replayed(m, cmds).ok ==> Replayed(m, cmds[..n]).ok
    decreases |cmds|
  {
    hide PlanCommand, LogRows, EventRows;
    if n == |cmds| {
      assert cmds[..n] == cmds;
    } else {
      RunGrows(m, cmds[..|cmds| - 1], n);
      assert cmds[..|cmds| - 1][..n] == cmds[..n];
      AdvanceGrows(m, Replayed(m, cmds[..|cmds| - 1]), cmds[|cmds| - 1]);
      hide Advance;
    }
  }

  lemma AdvanceGrows(m: Market, r: Run, c: Command)
    ensures var next := Advance(m, r, c);
            r.logs <= next.logs && r.events <= next.events && (next.ok ==> r.ok)
  {
    hide PlanCommand;
  }

  lemma PrefixRows(a: seq<MatchLog>, b: seq<MatchLog>)
    requires a <= b && LogRows(b).Some?
    ensures LogRows(a).Some? && LogRows(a).value <= LogRows(b).value
  {
    assert b == a + b[|a|..];
    LogRowsConcat(a, b[|a|..]);
  }

  lemma PrefixEventRows(a: seq<Event>, b: seq<Event>)
    requires a <= b && EventRows(b).Some?
    ensures EventRows(a).Some? && EventRows(a).value <= EventRows(b).value
  {
    assert b == a + b[|a|..];
    EventRowsConcat(a, b[|a|..]);
  }

  lemma PrefixTable<K, R>(a: seq<Row<K, R>>, b: seq<Row<K, R>>)
    requires a <= b && DistinctKeys(b)
    ensures DistinctKeys(a) && Within(TableOf(a), TableOf(b))
  {
    assert forall i :: 0 <= i < |a| ==> a[i] == b[i];
    TableHolds(a);
    TableHolds(b);
  }

  /** The identities a journal relies on. */
  ghost predicate Identified(cmds: seq<Command>) {
    DistinctTakers(cmds) && UniqueIDs(cmds)
  }

  lemma IdentifiedPrefix(cmds: seq<Command>, n: nat)
    requires n <= |cmds| && Identified(cmds)
    ensures Identified(cmds[..n])
  {
    assert forall i :: 0 <= i < n ==> cmds[..n][i] == cmds[i];
  }

  lemma TablesGrow(m: Market, cmds: seq<Command>, n: nat)
    requires n <= |cmds| && Identified(cmds)
    ensures Within(LogTable(m, cmds[..n]), LogTable(m, cmds)) && Within(EventTable(m, cmds[..n]), EventTable(m, cmds))
  {
    RunGrows(m, cmds, n);
    RunKeysDistinct(m, cmds);
    PrefixRows(Replayed(m, cmds[..n]).logs, Replayed(m, cmds).logs);
    PrefixEventRows(Replayed(m, cmds[..n]).events, Replayed(m, cmds).events);
    PrefixTable(LogRows(Replayed(m, cmds[..n]).logs).value, LogRows(Replayed(m, cmds).logs).value);
    PrefixTable(EventRows(Replayed(m, cmds[..n]).events).value, EventRows(Replayed(m, cmds).events).value);
  }

  // ----- one batch -----

  /** Rows of this ticker, told apart by the predicate own, that one consistent table calls for. */
  ghost predicate OwnWithin<K, R>(rows: map<K, R>, all: map<K, R>, own: K -> bool) {
    forall k :: k in rows && own(k) ==> k in all && all[k] == rows[k]
  }

  ghost predicate SameForeign<K, R>(rows: map<K, R>, next: map<K, R>, own: K -> bool) {
    && (forall k :: k in rows && !own(k) ==> k in next && next[k] == rows[k])
    && (forall k :: k in next && !own(k) ==> k in rows)
  }

  /**
   * Saving a batch of rows that a consistent table calls for: it is never refused, it only adds rows
   * of that table, it leaves everything else alone, and it fails only through a fault.
   */
  lemma SaveOwn<K, R>(rows: map<K, R>, batch: seq<Row<K, R>>, all: map<K, R>, own: K -> bool, fault: Fault)
    requires OwnWithin(rows, all, own)
    requires forall i :: 0 <= i < |batch| ==> own(batch[i].key) && batch[i].key in all && all[batch[i].key] == batch[i].value
    ensures var (next, ok) := SaveBatch(rows, batch, fault);
            && OwnWithin(next, all, own) && Within(rows, next) && SameForeign(rows, next, own)
            && (ok ==> Within(TableOf(batch), next))
            && (fault == NoFault ==> ok)
  {
    var foreign := map k | k in rows && !own(k) :: rows[k];
    var union := all + foreign;
    forall i | 0 <= i < |batch| ensures batch[i].key in union && union[batch[i].key] == batch[i].value {
    }
    ConsistentNeverRefused(rows, batch, union);
    InsertAdds(rows, batch);
    TableKeys(batch);
  }

  lemma {:induction false} TableKeys<K, R>(batch: seq<Row<K, R>>)
    ensures forall k :: k in TableOf(batch) ==> exists i :: 0 <= i < |batch| && batch[i].key == k
    decreases |batch|
  {
    if batch != [] {
      TableKeys(batch[1..]);
      forall k | k in TableOf(batch) ensures exists i :: 0 <= i < |batch| && batch[i].key == k {
        if k in TableOf(batch[1..]) {
          var i :| 0 <= i < |batch[1..]| && batch[1..][i].key == k;
          assert batch[i + 1].key == k;
        } else {
          assert batch[0].key == k;
        }
      }
    }
  }

  // ----- one command -----

  predicate OwnLog(m: Market, k: ExecutionID) {
    k.ticker == m.ticker
  }

  /** What the journal's n-th command adds to the run. */
  lemma CommandAdds(m: Market, cmds: seq<Command>, n: nat)
    requires n < |cmds| && Replayed(m, cmds[..n]).ok
    ensures var r := Replayed(m, cmds[..n]);
            var plan := PlanCommand(m, r.book, cmds[n]);
            var next := Replayed(m, cmds[..n + 1]);
            && next == Advance(m, r, cmds[n])
            && (next.ok ==> plan.Planned?)
            && (plan.Planned? && LogRows(plan.logs).Some? ==>
                  && next.logs == r.logs + plan.logs && next.book == plan.final
                  && next.events == (if AllValid(EventsOf(plan)) then r.events + EventsOf(plan) else r.events)
                  && (next.ok <==> AllValid(EventsOf(plan)))
                  && (AllValid(EventsOf(plan)) <==> EventRows(EventsOf(plan)).Some?))
            && (!(plan.Planned? && LogRows(plan.logs).Some?) ==> next.logs == r.logs && next.events == r.events && !next.ok)
  {
    assert cmds[..n + 1][..n] == cmds[..n];
    var plan := PlanCommand(m, Replayed(m, cmds[..n]).book, cmds[n]);
    hide PlanCommand, LogRows, EventRows, AllValid, Stamped;
    if plan.Planned? {
      StoredEventsValid(EventsOf(plan));
    }
  }

  /** Rows appended to a run's rows keep their places in every longer journal's table. */
  lemma AddedRows<K, R>(before: seq<Row<K, R>>, added: seq<Row<K, R>>, all: map<K, R>)
    requires DistinctKeys(before + added) && Within(TableOf(before + added), all)
    ensures TableOf(before + added) == TableOf(before) + TableOf(added)
    ensures forall i :: 0 <= i < |added| ==> added[i].key in all && all[added[i].key] == added[i].value
  {
    TableConcat(before, added);
    TableHolds(before + added);
    forall i | 0 <= i < |added| ensures added[i].key in all && all[added[i].key] == added[i].value {
      assert (before + added)[|before| + i] == added[i];
    }
  }

  lemma CommandLogRows(m: Market, cmds: seq<Command>, n: nat)
    requires n < |cmds| && Identified(cmds) && Replayed(m, cmds[..n]).ok
    requires PlanCommand(m, Replayed(m, cmds[..n]).book, cmds[n]).Planned?
    ensures var plan := PlanCommand(m, Replayed(m, cmds[..n]).book, cmds[n]);
            var rows := LogRows(plan.logs);
            rows.Some? ==>
              && LogTable(m, cmds[..n + 1]) == LogTable(m, cmds[..n]) + TableOf(rows.value)
              && forall i :: 0 <= i < |rows.value| ==>
                   && rows.value[i].key.ticker == m.ticker
                   && rows.value[i].key in LogTable(m, cmds) && LogTable(m, cmds)[rows.value[i].key] == rows.value[i].value
  {
    var r := Replayed(m, cmds[..n]);
    var plan := PlanCommand(m, r.book, cmds[n]);
    CommandAdds(m, cmds, n);
    PlanLogKeys(m, r.book, cmds[n]);
    RunRowsStorable(m, cmds[..n]);
    hide PlanCommand, LogRows, Replayed, DistinctKeys, TableOf, Advance, Identified;
    if LogRows(plan.logs).Some? {
      LogRowsConcat(r.logs, plan.logs);
      LogRowKeys(plan.logs);
      IdentifiedPrefix(cmds, n + 1);
      KeysDistinct(m, cmds[..n + 1]);
      TablesGrow(m, cmds, n + 1);
      AddedRows(LogRows(r.logs).value, LogRows(plan.logs).value, LogTable(m, cmds));
    }
  }

  lemma CommandEventRows(m: Market, cmds: seq<Command>, n: nat)
    requires n < |cmds| && Identified(cmds) && Replayed(m, cmds[..n + 1]).ok && Replayed(m, cmds[..n]).ok
    requires forall i :: 0 <= i < |cmds| ==> cmds[i].ticker == m.ticker
    ensures var plan := PlanCommand(m, Replayed(m, cmds[..n]).book, cmds[n]);
            && plan.Planned? && EventRows(EventsOf(plan)).Some? &&
            var rows := EventRows(EventsOf(plan)).value;
            && EventTable(m, cmds[..n + 1]) == EventTable(m, cmds[..n]) + TableOf(rows)
            && forall i :: 0 <= i < |rows| ==>
                 && rows[i].key.ticker == m.ticker
                 && rows[i].key in EventTable(m, cmds) && EventTable(m, cmds)[rows[i].key] == rows[i].value
  {
    var r := Replayed(m, cmds[..n]);
    var plan := PlanCommand(m, r.book, cmds[n]);
    CommandAdds(m, cmds, n);
    RunRowsStorable(m, cmds[..n]);
    PlanEventKeys(m, r.book, cmds[n]);
    hide PlanCommand, EventRows, LogRows, Replayed, DistinctKeys, TableOf, Advance, Identified, Stamped, AllValid;
    EventRowsConcat(r.events, EventsOf(plan));
    EventRowKeys(EventsOf(plan));
    IdentifiedPrefix(cmds, n + 1);
    KeysDistinct(m, cmds[..n + 1]);
    TablesGrow(m, cmds, n + 1);
    AddedRows(EventRows(r.events).value, EventRows(EventsOf(plan)).value, EventTable(m, cmds));
  }

  lemma KeysDistinct(m: Market, cmds: seq<Command>)
    requires Identified(cmds)
    ensures var r := Replayed(m, cmds);
            && LogRows(r.logs).Some? && DistinctKeys(LogRows(r.logs).value)
            && EventRows(r.events).Some? && DistinctKeys(EventRows(r.events).value)
  {
    RunKeysDistinct(m, cmds);
  }

  lemma {:induction false} TableConcat<K, R>(a: seq<Row<K, R>>, b: seq<Row<K, R>>)
    requires DistinctKeys(a + b)
    ensures TableOf(a + b) == TableOf(a) + TableOf(b)
    decreases |a|
  {
    if a == [] {
      assert a + b == b;
    } else {
      assert (a + b)[1..] == a[1..] + b;
      forall i | 0 < i < |a + b| ensures (a + b)[i].key != a[0].key && (a + b)[i] == (a[1..] + b)[i - 1] {
        assert (a + b)[0].key != (a + b)[i].key;
      }
      TableConcat(a[1..], b);
      TableKeys(b);
      forall k | k in TableOf(b) ensures k != a[0].key {
        var i :| 0 <= i < |b| && b[i].key == k;
        assert (a + b)[|a| + i].key != a[0].key;
      }
    }
  }

  // ----- one command through the stores -----

  predicate OwnEvent(m: Market, k: EventID) {
    k.ticker == m.ticker
  }

  /** Rows are only added, and never to another ticker. */
  ghost predicate OnlyAdds(m: Market, t: Tables, next: Tables) {
    && Within(t.logRows, next.logRows) && Within(t.eventRows, next.eventRows)
    && SameForeign(t.logRows, next.logRows, k => OwnLog(m, k))
    && SameForeign(t.eventRows, next.eventRows, k => OwnEvent(m, k))
  }

  lemma SaveOwnLogs(m: Market, t: Tables, batch: seq<LogRow>, all: map<ExecutionID, MatchLog>, fault: Fault)
    requires Within(OwnLogs(m, t), all)
    requires forall i :: 0 <= i < |batch| ==>
               batch[i].key.ticker == m.ticker && batch[i].key in all && all[batch[i].key] == batch[i].value
    ensures var (next, ok) := SaveBatch(t.logRows, batch, fault);
            var after := t.(logRows := next);
            && Within(OwnLogs(m, after), all) && OnlyAdds(m, t, after) && Within(OwnLogs(m, t), OwnLogs(m, after))
            && (ok ==> Within(TableOf(batch), OwnLogs(m, after)))
            && (fault == NoFault ==> ok)
  {
    SaveOwn(t.logRows, batch, all, k => OwnLog(m, k), fault);
    TableKeys(batch);
    hide SaveBatch, TableOf;
  }

  lemma SaveOwnEvents(m: Market, t: Tables, batch: seq<EventRow>, all: map<EventID, Event>, fault: Fault)
    requires Within(OwnEvents(m, t), all)
    requires forall i :: 0 <= i < |batch| ==>
               batch[i].key.ticker == m.ticker && batch[i].key in all && all[batch[i].key] == batch[i].value
    ensures var (next, ok) := SaveBatch(t.eventRows, batch, fault);
            var after := t.(eventRows := next);
            && Within(OwnEvents(m, after), all) && OnlyAdds(m, t, after) && Within(OwnEvents(m, t), OwnEvents(m, after))
            && (ok ==> Within(TableOf(batch), OwnEvents(m, after)))
            && (fault == NoFault ==> ok)
  {
    SaveOwn(t.eventRows, batch, all, k => OwnEvent(m, k), fault);
    TableKeys(batch);
    hide SaveBatch, TableOf;
  }

  lemma OnlyAddsTwice(m: Market, t: Tables, mid: Tables, next: Tables)
    requires OnlyAdds(m, t, mid) && OnlyAdds(m, mid, next)
    ensures OnlyAdds(m, t, next)
  {
  }

  lemma WithinTwice<K, R>(a: map<K, R>, b: map<K, R>, c: map<K, R>)
    requires Within(a, b) && Within(b, c)
    ensures Within(a, c)
  {
  }

  lemma WithinSum<K, R>(a: map<K, R>, b: map<K, R>, all: map<K, R>)
    requires Within(a, all) && Within(b, all)
    ensures Within(a + b, all)
  {
  }

  /**
   * The n-th command of a journal, processed on the book the commands before it leave: the tables stay
   * consistent with the journal whatever fails. If it succeeds, so does the run, the books agree and
   * its rows are stored; without a fault it fails only where the run does.
   */
  lemma ProcessFollows(m: Market, t: Tables, cmds: seq<Command>, n: nat, f: SaveFaults)
    requires n < |cmds| && Identified(cmds) && forall i :: 0 <= i < |cmds| ==> cmds[i].ticker == m.ticker
    requires Replayed(m, cmds[..n]).ok && NothingElse(m, t, cmds)
    ensures var p := Process(m, Replayed(m, cmds[..n]).book, t, cmds[n], f);
            var next := Replayed(m, cmds[..n + 1]);
            && NothingElse(m, p.tables, cmds) && OnlyAdds(m, t, p.tables)
            && (p.ok ==> next.ok && p.book == next.book)
            && (p.ok && NothingMissing(m, t, cmds[..n]) ==> NothingMissing(m, p.tables, cmds[..n + 1]))
            && (next.ok && f == SaveFaults(NoFault, NoFault) ==> p.ok)
  {
    hide NothingElse, PlanCommand, LogRows, EventRows, Replayed, TableOf, Advance, Identified, Stamped, AllValid, SaveBatch, LogTable, EventTable, OwnLogs, OwnEvents, Within, OnlyAdds, UniqueIDs, DistinctTakers;
    var plan := PlanCommand(m, Replayed(m, cmds[..n]).book, cmds[n]);
    CommandAdds(m, cmds, n);
    SameTables(m, t);
    if plan.Planned? && LogRows(plan.logs).Some? {
      LogsFollow(m, t, cmds, n, f.logs);
      var (logRows, saved) := SaveLogs(t.logRows, plan.logs, f.logs);
      var mid := t.(logRows := logRows);
      if saved && AllValid(EventsOf(plan)) {
        EventsFollow(m, mid, cmds, n, f.events);
        var (eventRows, _) := SaveEvents(mid.eventRows, EventsOf(plan), f.events);
        OnlyAddsTwice(m, t, mid, mid.(eventRows := eventRows));
      }
    }
  }

  lemma SameTables(m: Market, t: Tables)
    ensures OnlyAdds(m, t, t)
  {
  }

  lemma LogsFollow(m: Market, t: Tables, cmds: seq<Command>, n: nat, fault: Fault)
    requires n < |cmds| && Identified(cmds) && Replayed(m, cmds[..n]).ok && NothingElse(m, t, cmds)
    requires var plan := PlanCommand(m, Replayed(m, cmds[..n]).book, cmds[n]);
             plan.Planned? && LogRows(plan.logs).Some?
    ensures var plan := PlanCommand(m, Replayed(m, cmds[..n]).book, cmds[n]);
            var (logRows, saved) := SaveLogs(t.logRows, plan.logs, fault);
            var after := t.(logRows := logRows);
            && NothingElse(m, after, cmds) && OnlyAdds(m, t, after)
            && (saved && Within(LogTable(m, cmds[..n]), OwnLogs(m, t)) ==> Within(LogTable(m, cmds[..n + 1]), OwnLogs(m, after)))
            && OwnEvents(m, after) == OwnEvents(m, t)
            && (fault == NoFault ==> saved)
  {
    hide PlanCommand, LogRows, Replayed, TableOf, Identified, SaveBatch, LogTable, EventTable, OwnLogs, Within, OnlyAdds;
    var plan := PlanCommand(m, Replayed(m, cmds[..n]).book, cmds[n]);
    CommandLogRows(m, cmds, n);
    var rows := LogRows(plan.logs).value;
    SaveOwnLogs(m, t, rows, LogTable(m, cmds), fault);
    var (logRows, saved) := SaveLogs(t.logRows, plan.logs, fault);
    var after := t.(logRows := logRows);
    if saved && Within(LogTable(m, cmds[..n]), OwnLogs(m, t)) {
      WithinTwice(LogTable(m, cmds[..n]), OwnLogs(m, t), OwnLogs(m, after));
      WithinSum(LogTable(m, cmds[..n]), TableOf(rows), OwnLogs(m, after));
    }
  }

  lemma EventsFollow(m: Market, t: Tables, cmds: seq<Command>, n: nat, fault: Fault)
    requires n < |cmds| && Identified(cmds) && forall i :: 0 <= i < |cmds| ==> cmds[i].ticker == m.ticker
    requires Replayed(m, cmds[..n]).ok && Replayed(m, cmds[..n + 1]).ok && NothingElse(m, t, cmds)
    requires PlanCommand(m, Replayed(m, cmds[..n]).book, cmds[n]).Planned?
    ensures var plan := PlanCommand(m, Replayed(m, cmds[..n]).book, cmds[n]);
            var (eventRows, saved) := SaveEvents(t.eventRows, EventsOf(plan), fault);
            var after := t.(eventRows := eventRows);
            && NothingElse(m, after, cmds) && OnlyAdds(m, t, after)
            && (saved && Within(EventTable(m, cmds[..n]), OwnEvents(m, t)) ==> Within(EventTable(m, cmds[..n + 1]), OwnEvents(m, after)))
            && OwnLogs(m, after) == OwnLogs(m, t)
            && (fault == NoFault ==> saved)
  {
    hide PlanCommand, EventRows, Replayed, TableOf, Identified, SaveBatch, LogTable, EventTable, OwnEvents, Within, OnlyAdds, Stamped;
    var plan := PlanCommand(m, Replayed(m, cmds[..n]).book, cmds[n]);
    CommandEventRows(m, cmds, n);
    var rows := EventRows(EventsOf(plan)).value;
    SaveOwnEvents(m, t, rows, EventTable(m, cmds), fault);
    var (eventRows, saved) := SaveEvents(t.eventRows, EventsOf(plan), fault);
    var after := t.(eventRows := eventRows);
    if saved && Within(EventTable(m, cmds[..n]), OwnEvents(m, t)) {
      WithinTwice(EventTable(m, cmds[..n]), OwnEvents(m, t), OwnEvents(m, after));
      WithinSum(EventTable(m, cmds[..n]), TableOf(rows), OwnEvents(m, after));
    }
  }

  // ----- replay -----

  const NO_FAULTS := SaveFaults(NoFault, NoFault)

  lemma PrefixStep(cmds: seq<Command>)
    ensures cmds[..|cmds|] == cmds && cmds[..0] == []
  {
  }

  lemma {:induction false} ReplayFollows(m: Market, t: Tables, cmds: seq<Command>, n: nat, last: int, faults: nat -> SaveFaults)
    requires n <= |cmds| && Identified(cmds) && Replayable(cmds, m.ticker)
    requires last == if n == 0 then 0 else cmds[n - 1].sequence
    requires Replayed(m, cmds[..n]).ok && NothingElse(m, t, cmds) && NothingMissing(m, t, cmds[..n])
    ensures var p := ReplayFrom(m, Replayed(m, cmds[..n]).book, t, cmds, n, last, faults);
            var r := Replayed(m, cmds);
            && NothingElse(m, p.tables, cmds) && OnlyAdds(m, t, p.tables)
            && (p.ok ==> r.ok && p.book == r.book && NothingMissing(m, p.tables, cmds))
            && (r.ok && (forall i :: faults(i) == NO_FAULTS) ==> p.ok)
    decreases |cmds| - n
  {
    hide NothingElse, NothingMissing, PlanCommand, Process, Replayed, Identified, OnlyAdds;
    PrefixStep(cmds);
    SameTables(m, t);
    if n < |cmds| {
      var p := Process(m, Replayed(m, cmds[..n]).book, t, cmds[n], faults(n));
      ProcessFollows(m, t, cmds, n, faults(n));
      RunGrows(m, cmds, n + 1);
      if p.ok {
        ReplayFollows(m, p.tables, cmds, n + 1, cmds[n].sequence, faults);
        OnlyAddsTwice(m, t, p.tables, ReplayFrom(m, p.book, p.tables, cmds, n + 1, cmds[n].sequence, faults).tables);
      }
    }
  }

  /** A replay that completes was given rows of its ticker only, in strictly increasing order. */
  lemma {:induction false} ReplayedInOrder(m: Market, b: Book, t: Tables, cmds: seq<Command>, i: nat, last: int, faults: nat -> SaveFaults)
    requires i <= |cmds| && ReplayFrom(m, b, t, cmds, i, last, faults).ok
    ensures forall k :: i <= k < |cmds| ==> cmds[k].ticker == m.ticker && cmds[k].sequence > last
    ensures forall j, k :: i <= j < k < |cmds| ==> cmds[j].sequence < cmds[k].sequence
    decreases |cmds| - i
  {
    hide Process;
    if i < |cmds| {
      var p := Process(m, b, t, cmds[i], faults(i));
      ReplayedInOrder(m, p.book, p.tables, cmds, i + 1, cmds[i].sequence, faults);
    }
  }

  /** A row of another ticker, or one out of order, stops the replay before it does anything. */
  lemma ReplayRefuses(m: Market, b: Book, t: Tables, cmds: seq<Command>, i: nat, last: int, faults: nat -> SaveFaults)
    requires i < |cmds| && (cmds[i].ticker != m.ticker || cmds[i].sequence <= last)
    ensures ReplayFrom(m, b, t, cmds, i, last, faults) == Processed(b, t, false)
  {
    hide Process;
  }

  lemma WithinBoth<K, R>(a: map<K, R>, b: map<K, R>)
    requires Within(a, b) && Within(b, a)
    ensures a == b
  {
  }

  lemma NothingMissingAtStart(m: Market, t: Tables)
    ensures NothingMissing(m, t, []) && Replayed(m, []) == START
  {
  }

  lemma RecoveredWhenComplete(m: Market, s: Sys)
    requires var cmds := JournalOf(m, s);
             Replayed(m, cmds).ok && s.book == Replayed(m, cmds).book && NothingElse(m, s.tables, cmds) && NothingMissing(m, s.tables, cmds)
    ensures Recovered(m, s)
  {
    hide Replayed, LogTable, EventTable, OwnLogs, OwnEvents, Within, JournalOf;
    WithinBoth(OwnLogs(m, s.tables), LogTable(m, JournalOf(m, s)));
    WithinBoth(OwnEvents(m, s.tables), EventTable(m, JournalOf(m, s)));
  }

  lemma {:induction false} TickerRowsUnique(rows: seq<Command>, ticker: string)
    requires UniqueIDs(rows)
    ensures UniqueIDs(TickerRows(rows, ticker))
  {
    if rows != [] {
      var n := |rows| - 1;
      TickerRowsUnique(rows[..n], ticker);
      var front := TickerRows(rows[..n], ticker);
      forall i | 0 <= i < |front| ensures front[i].commandID != rows[n].commandID {
        TickerRowsFrom(rows[..n], ticker, i);
        var k :| 0 <= k < n && rows[..n][k] == front[i];
        assert rows[k].commandID != rows[n].commandID;
      }
    }
  }

  lemma JournalIdentified(m: Market, s: Sys)
    requires JournalOK(s.journal) && DistinctTakers(JournalOf(m, s))
    ensures Identified(JournalOf(m, s)) && Replayable(JournalOf(m, s), m.ticker)
  {
    TickerRowsUnique(s.journal.rows, m.ticker);
    forall i | 0 <= i < |s.journal.rows| ensures s.journal.rows[i].sequence >= 1 {
      assert ValidRow(s.journal, s.journal.rows[i]);
    }
    ListedIsReplayable(s.journal.rows, m.ticker);
  }

  /**
   * A restart, whatever was left behind by the failure before it: if replay completes, the stored rows
   * are exactly the journal's and the book is the journal's; and without a fault replay completes
   * exactly when every journalled command applies.
   */
  lemma RestartRecovers(m: Market, s: Sys, faults: nat -> SaveFaults)
    requires JournalOK(s.journal) && DistinctTakers(JournalOf(m, s)) && NothingElse(m, s.tables, JournalOf(m, s))
    ensures var next := Restart(m, s, faults);
            && Inv(m, next) && OnlyAdds(m, s.tables, next.tables)
            && (next.live ==> Replayed(m, JournalOf(m, s)).ok)
            && ((forall i :: faults(i) == NO_FAULTS) ==> (next.live <==> Replayed(m, JournalOf(m, s)).ok))
  {
    var cmds := JournalOf(m, s);
    JournalIdentified(m, s);
    NothingMissingAtStart(m, s.tables);
    PrefixStep(cmds);
    hide Identified, Replayable, NothingElse, NothingMissing, Replayed, ReplayFrom, OnlyAdds, DistinctTakers, Recovered;
    ReplayFollows(m, s.tables, cmds, 0, 0, faults);
    var next := Restart(m, s, faults);
    assert JournalOf(m, next) == cmds;
    if next.live {
      RecoveredWhenComplete(m, next);
    }
  }

  // ----- every action keeps the invariant -----

  lemma {:induction false} TickerRowsGrow(rows: seq<Command>, next: seq<Command>, ticker: string)
    requires rows <= next && |next| <= |rows| + 1
    ensures next == rows ==> TickerRows(next, ticker) == TickerRows(rows, ticker)
    ensures next != rows ==>
              TickerRows(next, ticker) == TickerRows(rows, ticker) + (if next[|rows|].ticker == ticker then [next[|rows|]] else [])
  {
    if next != rows {
      assert next[..|next| - 1] == rows;
    }
  }

  lemma MoreJournal(m: Market, t: Tables, cmds: seq<Command>, more: seq<Command>)
    requires cmds <= more && Identified(more) && NothingElse(m, t, cmds)
    ensures NothingElse(m, t, more) && Identified(cmds)
  {
    assert more[..|cmds|] == cmds;
    TablesGrow(m, more, |cmds|);
    IdentifiedPrefix(more, |cmds|);
    hide Identified, LogTable, EventTable, OwnLogs, OwnEvents, Within;
    WithinTwice(OwnLogs(m, t), LogTable(m, cmds), LogTable(m, more));
    WithinTwice(OwnEvents(m, t), EventTable(m, cmds), EventTable(m, more));
  }

  lemma AppendGrows(m: Market, j: JournalState, c: Command, now: int, fault: Fault, readable: bool)
    requires JournalOK(j)
    ensures var (next, result) := AppendTo(j, c, now, fault, readable);
            var before, after := TickerRows(j.rows, m.ticker), TickerRows(next.rows, m.ticker);
            && JournalOK(next) && j.rows <= next.rows && before <= after
            && (c.ticker != m.ticker ==> after == before)
            && (result.Ok? && !result.value.inserted ==> next.rows == j.rows)
            && (result.Ok? && result.value.inserted && c.ticker == m.ticker ==> after == before + [result.value.command])
  {
    AppendKeepsOrder(j, c, now, fault, readable);
    AppendReports(j, c, now, fault, readable);
    var next := AppendTo(j, c, now, fault, readable).0;
    TickerRowsGrow(j.rows, next.rows, m.ticker);
    hide JournalOK, FindCommand, TickerRows;
  }

  /** A live worker takes one more journalled command through the book and the stores. */
  lemma ExtendRecovered(m: Market, s: Sys, row: Command, f: SaveFaults, next: Sys)
    requires Recovered(m, s) && NothingElse(m, s.tables, JournalOf(m, s))
    requires JournalOf(m, next) == JournalOf(m, s) + [row] && Identified(JournalOf(m, next))
    requires forall i :: 0 <= i < |JournalOf(m, next)| ==> JournalOf(m, next)[i].ticker == m.ticker
    requires var p := Process(m, s.book, s.tables, row, f);
             next.book == p.book && next.tables == p.tables && next.live == p.ok
    ensures NothingElse(m, next.tables, JournalOf(m, next)) && OnlyAdds(m, s.tables, next.tables)
    ensures next.live ==> Recovered(m, next)
    ensures f == NO_FAULTS ==> (next.live <==> Replayed(m, JournalOf(m, next)).ok)
  {
    var before, after := JournalOf(m, s), JournalOf(m, next);
    var n := |before|;
    assert after[..n] == before && after[..n + 1] == after;
    MoreJournal(m, s.tables, before, after);
    NothingMissingWhenRecovered(m, s);
    hide Identified, NothingElse, NothingMissing, Replayed, Process, OnlyAdds, Recovered, JournalOf;
    ProcessFollows(m, s.tables, after, n, f);
    assert after[n] == row;
    RecoveredBook(m, s);
    if next.live {
      RecoveredWhenComplete(m, next);
    }
  }

  lemma RecoveredBook(m: Market, s: Sys)
    requires Recovered(m, s)
    ensures Replayed(m, JournalOf(m, s)).ok && s.book == Replayed(m, JournalOf(m, s)).book
  {
  }

  lemma NothingMissingWhenRecovered(m: Market, s: Sys)
    requires Recovered(m, s)
    ensures NothingMissing(m, s.tables, JournalOf(m, s))
  {
  }

  /** One command event, whatever fails on the way, keeps the invariant and leaves other tickers alone. */
  lemma HandleKeeps(m: Market, s: Sys, ev: Request, now: int, f: Faults)
    requires Inv(m, s) && DistinctTakers(JournalOf(m, Handle(m, s, ev, now, f).0))
    ensures var (next, ack) := Handle(m, s, ev, now, f);
            && Inv(m, next) && JournalOf(m, s) <= JournalOf(m, next) && OnlyAdds(m, s.tables, next.tables)
  {
    hide TickerRows, NothingElse, OnlyAdds, Replayed, Process, AppendTo, JournalOK, DistinctTakers, UniqueIDs, Recovered;
    var (next, ack) := Handle(m, s, ev, now, f);
    var request := CommandFromEvent(m, ev);
    SameTables(m, s.tables);
    if s.live && !(ev.ticker != "" && ev.ticker != m.ticker) && request.Some? {
      var c := request.value;
      var appended := AppendTo(s.journal, c, now, f.append, f.readable).1;
      AppendGrows(m, s.journal, c, now, f.append, f.readable);
      JournalIdentified(m, next);
      MoreJournal(m, s.tables, JournalOf(m, s), JournalOf(m, next));
      if appended.Ok? && appended.value.inserted {
        ExtendRecovered(m, s, appended.value.command, f.saves, next);
      } else {
        SameState(m, s, next);
      }
    }
  }

  /** The invariant looks at the ticker's own rows only. */
  lemma SameState(m: Market, s: Sys, next: Sys)
    requires next.tables == s.tables && next.book == s.book
    ensures JournalOf(m, next) == JournalOf(m, s) && Recovered(m, s) ==> Recovered(m, next)
  {
  }

  /** A successful append leaves the command in its ticker's journal. */
  lemma AppendJournals(m: Market, j: JournalState, c: Command, now: int, fault: Fault, readable: bool)
    requires JournalOK(j) && c.ticker == m.ticker
    ensures var (next, result) := AppendTo(j, c, now, fault, readable);
            var row := FindCommand(next.rows, c.commandID);
            result.Ok? ==>
              row == Some(result.value.command) && IsRowOf(row.value, c) && row.value in TickerRows(next.rows, m.ticker)
  {
    AppendReports(j, c, now, fault, readable);
    var (next, result) := AppendTo(j, c, now, fault, readable);
    hide AppendTo, JournalOK, FindCommand, TickerRows;
    if result.Ok? {
      FindCommandFinds(next.rows, c.commandID);
      TickerRowsHas(next.rows, m.ticker, result.value.command);
    }
  }

  ghost predicate IsJournalled(m: Market, s: Sys, c: Command) {
    var row := FindCommand(s.journal.rows, c.commandID);
    row.Some? && IsRowOf(row.value, c) && row.value in JournalOf(m, s)
  }

  /**
   * Fail-closed acknowledgement. Success for a request that asks for a command means the command is
   * journalled with the same payload and the worker is live, so its book and its stored rows are
   * exactly those of the journal that now holds the command. A halted worker, a misrouted event or an
   * event without a payload changes nothing at all.
   */
  lemma Acknowledged(m: Market, s: Sys, ev: Request, now: int, f: Faults)
    requires Inv(m, s) && DistinctTakers(JournalOf(m, Handle(m, s, ev, now, f).0))
    ensures var (next, ack) := Handle(m, s, ev, now, f);
            var request := CommandFromEvent(m, ev);
            && (ack == Success && request.Some? ==> IsJournalled(m, next, request.value) && Recovered(m, next))
            && (ack == Halted <==> !next.live)
            && (!s.live || ack == Misrouted || request.None? ==> next == s)
  {
    HandleKeeps(m, s, ev, now, f);
    HandleJournals(m, s, ev, now, f);
    hide NothingElse, Replayed, Process, DistinctTakers, Recovered, JournalOK, JournalOf, AppendTo, OnlyAdds, IsJournalled;
  }

  lemma HandleJournals(m: Market, s: Sys, ev: Request, now: int, f: Faults)
    requires JournalOK(s.journal)
    ensures var (next, ack) := Handle(m, s, ev, now, f);
            var request := CommandFromEvent(m, ev);
            ack == Success && request.Some? ==> IsJournalled(m, next, request.value)
  {
    hide Process, JournalOK, TickerRows, AppendTo, FindCommand, IsRowOf;
    var request := CommandFromEvent(m, ev);
    if request.Some? {
      AppendJournals(m, s.journal, request.value, now, f.append, f.readable);
    }
  }

  lemma {:induction false} TickerRowsHas(rows: seq<Command>, ticker: string, c: Command)
    requires c in rows && c.ticker == ticker
    ensures c in TickerRows(rows, ticker)
  {
    var n := |rows| - 1;
    if c != rows[n] {
      TickerRowsHas(rows[..n], ticker, c);
    }
  }

  /**
   * Exactly once: a request whose command id is journalled never takes effect again, whatever fails.
   * It is acknowledged exactly when its payload is that of the journalled row and nothing fails.
   */
  lemma SeenTakesNoEffect(m: Market, s: Sys, ev: Request, now: int, f: Faults)
    requires JournalOK(s.journal) && CommandFromEvent(m, ev).Some? && (ev.ticker == "" || ev.ticker == m.ticker)
    requires FindCommand(s.journal.rows, CommandFromEvent(m, ev).value.commandID).Some?
    ensures var (next, ack) := Handle(m, s, ev, now, f);
            var c := CommandFromEvent(m, ev).value;
            && next.journal.rows == s.journal.rows && next.tables == s.tables && next.book == s.book
            && (ack == Success <==> s.live && f.append == NoFault && f.readable
                                    && IsRowOf(FindCommand(s.journal.rows, c.commandID).value, c))
  {
    hide Process, JournalOK, TickerRows, AppendTo, FindCommand, IsRowOf;
    AppendSeen(s.journal, CommandFromEvent(m, ev).value, now, f.append, f.readable);
  }

  /** The journal stays in order and only grows, whatever happens: no row ever changes or goes away. */
  lemma ActGrows(m: Market, s: Sys, a: Action)
    requires JournalOK(s.journal) && Foreign(m, a)
    ensures var next := Act(m, s, a);
            JournalOK(next.journal) && s.journal.rows <= next.journal.rows && JournalOf(m, s) <= JournalOf(m, next)
  {
    hide JournalOK, TickerRows, AppendTo, Process, ReplayFrom, SaveBatch;
    match a
    case Submit(ev, now, f) =>
      var request := CommandFromEvent(m, ev);
      if request.Some? {
        AppendGrows(m, s.journal, request.value, now, f.append, f.readable);
      }
    case OtherAppend(c, now, fault, readable) =>
      AppendGrows(m, s.journal, c, now, fault, readable);
    case _ =>
  }

  /** A transaction of other tickers' rows leaves this ticker's rows as they are. */
  lemma SaveForeign<K, R>(rows: map<K, R>, batch: seq<Row<K, R>>, own: K -> bool, fault: Fault)
    requires forall i :: 0 <= i < |batch| ==> !own(batch[i].key)
    ensures var next := SaveBatch(rows, batch, fault).0;
            forall k :: own(k) ==> ((k in next <==> k in rows) && (k in rows ==> next[k] == rows[k]))
  {
    if InsertAll(rows, batch).Some? {
      InsertAdds(rows, batch);
      TableKeys(batch);
    }
  }

  lemma ActKeeps(m: Market, s: Sys, a: Action)
    requires Inv(m, s) && Foreign(m, a) && DistinctTakers(JournalOf(m, Act(m, s, a)))
    ensures Inv(m, Act(m, s, a))
  {
    hide JournalOK, TickerRows, AppendTo, Process, ReplayFrom, SaveBatch, Replayed, DistinctTakers, LogTable, EventTable, Handle;
    var next := Act(m, s, a);
    match a
    case Submit(ev, now, f) => HandleKeeps(m, s, ev, now, f);
    case Reboot(f) => RestartRecovers(m, s, f);
    case HaltedElsewhere =>
    case OtherAppend(c, now, fault, readable) =>
      AppendGrows(m, s.journal, c, now, fault, readable);
    case OtherLogs(batch, fault) =>
      SaveForeign(s.tables.logRows, batch, k => OwnLog(m, k), fault);
      assert forall k :: OwnLog(m, k) ==> (k in next.tables.logRows <==> k in s.tables.logRows);
      assert OwnLogs(m, next.tables) == OwnLogs(m, s.tables);
    case OtherEvents(batch, fault) =>
      SaveForeign(s.tables.eventRows, batch, k => OwnEvent(m, k), fault);
      assert forall k :: OwnEvent(m, k) ==> (k in next.tables.eventRows <==> k in s.tables.eventRows);
      assert OwnEvents(m, next.tables) == OwnEvents(m, s.tables);
  }

  lemma {:induction false} JournalGrows(m: Market, actions: seq<Action>)
    requires forall i :: 0 <= i < |actions| ==> Foreign(m, actions[i])
    ensures JournalOK(Perform(m, actions).journal)
    ensures actions != [] ==> JournalOf(m, Perform(m, actions[..|actions| - 1])) <= JournalOf(m, Perform(m, actions))
  {
    if actions != [] {
      var n := |actions| - 1;
      JournalGrows(m, actions[..n]);
      ActGrows(m, Perform(m, actions[..n]), actions[n]);
    }
  }

  /**
   * Crash recovery. Over every run of submissions, lost commits, commits that land while reporting an
   * error, halts, restarts and foreign writes: nothing is ever stored for the ticker but what its
   * journal calls for, and whenever the worker is live its book and the ticker's rows are exactly
   * those of applying the whole journal from an empty book.
   */
  lemma {:induction false} EveryRunRecovers(m: Market, actions: seq<Action>)
    requires forall i :: 0 <= i < |actions| ==> Foreign(m, actions[i])
    requires DistinctTakers(JournalOf(m, Perform(m, actions)))
    ensures Inv(m, Perform(m, actions))
  {
    if actions != [] {
      var n := |actions| - 1;
      JournalGrows(m, actions);
      var before, after := JournalOf(m, Perform(m, actions[..n])), JournalOf(m, Perform(m, actions));
      assert forall i :: 0 <= i < |before| ==> before[i] == after[i];
      EveryRunRecovers(m, actions[..n]);
      ActKeeps(m, Perform(m, actions[..n]), actions[n]);
    }
  }

  /**
   * What the tables of a journal are: one execution row for each execution of its run and no other, which
   * is the execution with a version and a quote if it had none; and one event row for each event and no
   * other, which is the event with a version if it had none.
   */
  lemma TablesExact(m: Market, cmds: seq<Command>)
    requires Identified(cmds)
    ensures var r := Replayed(m, cmds);
            var logs, events := LogTable(m, cmds), EventTable(m, cmds);
            && |logs| == |r.logs| && |events| == |r.events|
            && (forall log :: log in r.logs ==> log.executionID in logs && logs[log.executionID] == StoredLog(log))
            && (forall e :: e in r.events ==> e.eventID in events && events[e.eventID] == StoredEvent(e))
            && (forall k :: k in events ==> exists e :: e in r.events && e.eventID == k)
  {
    hide Replayed, LogRows, EventRows, StoredLog, StoredEvent, TableOf, ValidEvent, ValidMatchLog;
    RunKeysDistinct(m, cmds);
    var r := Replayed(m, cmds);
    LogRowsAre(r.logs);
    EventRowsAre(r.events);
    TableHolds(LogRows(r.logs).value);
    TableHolds(EventRows(r.events).value);
    forall k | k in EventTable(m, cmds) ensures exists e :: e in r.events && e.eventID == k {
      var i :| 0 <= i < |r.events| && EventRows(r.events).value[i].key == k;
      assert r.events[i] in r.events && r.events[i].eventID == k;
    }
  }

  /**
   * A live worker's book is sound and uncrossed, and folding the events its stored rows were made of
   * gives exactly the orders resting on it.
   */
  lemma LiveBookIsSound(m: Market, s: Sys)
    ensures Inv(m, s) && s.live && FreshIDs(JournalOf(m, s)) ==>
              var lives := Project(Births(JournalOf(m, s)), Replayed(m, JournalOf(m, s)).events);
              SoundBook(s.book) && lives.Some? && Mirrors(lives.value, s.book, {})
  {
    hide SoundBook, Mirrors, Project, JournalOf, FreshIDs, Replayed;
    if Inv(m, s) && s.live && FreshIDs(JournalOf(m, s)) {
      RecoveredBook(m, s);
      var lives := EventSourcing(m, JournalOf(m, s));
    }
  }
}
