/**
 * The durable tables: insert-or-ignore by identity, payload comparison on a repeated identity, and
 * one transaction per batch. A commit may be lost, or land while reporting an error.
 */
module Stores {
  import opened Models
  import opened Numeric
  import opened Matching
  import opened Journal
  import opened OrderEvents

  datatype Fault = NoFault | Lost | Landed

  datatype Row<K, R> = Row(key: K, value: R)

  /** The table after inserting a batch, or None when an identity is reused for another row. */
  function InsertAll<K(==), R(==)>(rows: map<K, R>, batch: seq<Row<K, R>>): Option<map<K, R>>
    decreases |batch|
  {
    if batch == [] then Some(rows)
    else if batch[0].key !in rows then InsertAll(rows[batch[0].key := batch[0].value], batch[1..])
    else if rows[batch[0].key] == batch[0].value then InsertAll(rows, batch[1..])
    else None
  }

  /** One batch transaction: all rows or none; an empty batch does not reach the database. */
  function SaveBatch<K(==), R(==)>(rows: map<K, R>, batch: seq<Row<K, R>>, fault: Fault): (map<K, R>, bool) {
    if batch == [] then (rows, true)
    else match InsertAll(rows, batch)
      case None => (rows, false)
      case Some(next) =>
        match fault
        case NoFault => (next, true)
        case Lost => (rows, false)
        case Landed => (next, false)
  }

  /**
   * A batch succeeds exactly when it is empty, or no row of it is refused and nothing fails. A lost or
   * refused batch leaves no row; one that landed leaves all of them, although it reports an error.
   */
  lemma SavedIff<K, R>(rows: map<K, R>, batch: seq<Row<K, R>>, fault: Fault)
    ensures var (next, ok) := SaveBatch(rows, batch, fault);
            && (ok <==> batch == [] || (InsertAll(rows, batch).Some? && fault == NoFault))
            && (batch != [] && (fault == Lost || InsertAll(rows, batch).None?) ==> next == rows)
            && (batch != [] && fault == Landed ==> !ok)
            && (batch != [] && fault != Lost && InsertAll(rows, batch).Some? ==> Some(next) == InsertAll(rows, batch))
  {
  }

  function Prepend<T>(front: seq<T>, back: Option<seq<T>>): Option<seq<T>> {
    match back
    case None => None
    case Some(rest) => Some(front + rest)
  }

  lemma PrependNothing<T>(back: Option<seq<T>>)
    ensures Prepend([], back) == back
  {
    if back.Some? {
      assert [] + back.value == back.value;
    }
  }

  lemma PrependOne<T>(front: seq<T>, x: T, back: Option<seq<T>>)
    ensures Prepend(front, Prepend([x], back)) == Prepend(front + [x], back)
  {
    if back.Some? {
      assert front + ([x] + back.value) == front + [x] + back.value;
    }
  }

  class Table<K(==), R(==)> {
    var rows: map<K, R>

    constructor ()
      ensures rows == map[]
    {
      rows := map[];
    }

    /** The transaction loop: nothing is visible until the commit. */
    method Save(batch: seq<Row<K, R>>, fault: Fault) returns (ok: bool)
      modifies this
      ensures (rows, ok) == SaveBatch(old(rows), batch, fault)
    {
      if batch == [] {
        return true;
      }
      var staged := rows;
      var i := 0;
      while i < |batch|
        invariant 0 <= i <= |batch| && rows == old(rows)
        invariant InsertAll(rows, batch) == InsertAll(staged, batch[i..])
      {
        if batch[i].key !in staged {
          staged := staged[batch[i].key := batch[i].value];
        } else if staged[batch[i].key] != batch[i].value {
          return false;
        }
        i := i + 1;
      }
      match fault
      case NoFault => rows := staged; ok := true;
      case Lost => ok := false;
      case Landed => rows := staged; ok := false;
    }
  }

  // ----- execution rows -----

  predicate ValidMatchLog(log: MatchLog) {
    && log.ticker != "" && log.price > 0 && log.amount > 0 && log.quoteAmount >= 0
    && !log.makerOrderID.IsEmpty() && !log.takerOrderID.IsEmpty() && log.makerUserID != "" && log.takerUserID != ""
    && log.matchedAt != ZeroTime
  }

  /** The row of an execution: a zero quote is recomputed with the default precision, a zero version defaulted. */
  function LogParams(log: MatchLog): Option<MatchLog> {
    if !ValidMatchLog(log) then None
    else
      var quote := if log.quoteAmount == 0 then QuoteAmount(DEFAULT_PRECISION, log.price, log.amount) else Ok(log.quoteAmount);
      if quote.Err? then None
      else Some(log.(quoteAmount := quote.value,
                     marketConfigVersion := if log.marketConfigVersion == 0 then DEFAULT_CONFIG_VERSION else log.marketConfigVersion))
  }

  /** A log the store accepts for conversion names its ticker, orders, users and time, and has amounts. */
  lemma ValidLogIs(log: MatchLog)
    ensures ValidMatchLog(log) <==>
              && !(log.ticker == "" || log.makerUserID == "" || log.takerUserID == "")
              && !(log.makerOrderID == Raw("") || log.takerOrderID == Raw(""))
              && !(log.price <= 0 || log.amount <= 0 || log.quoteAmount < 0 || log.matchedAt == ZeroTime)
  {
  }

  /** The row of a log that is stored: the log, with a version and a quote if it had none. */
  function StoredLog(log: MatchLog): MatchLog {
    var versioned := if log.marketConfigVersion != 0 then log else log.(marketConfigVersion := 1);
    if log.quoteAmount != 0 then versioned
    else versioned.(quoteAmount := log.price * log.amount * 100_000_000 / (100_000_000 * 100_000_000))
  }

  /** What the store makes of a valid log: when it refuses it, what row it becomes, and when the row is the log. */
  lemma StoredIff(log: MatchLog)
    requires ValidMatchLog(log)
    ensures LogParams(log).Some? ==> LogParams(log) == Some(StoredLog(log))
    ensures LogParams(log) == None <==> log.quoteAmount == 0 && QuoteAmount(DEFAULT_PRECISION, log.price, log.amount).Err?
    ensures LogParams(log) == Some(log) <==>
              log.marketConfigVersion != 0
              && (log.quoteAmount != 0 || QuoteAmount(DEFAULT_PRECISION, log.price, log.amount) == Ok(0))
  {
    assert Pow10(4) == 10_000;
    assert Pow10(8) == 100_000_000;
  }

  type LogRow = Row<ExecutionID, MatchLog>

  function LogRows(logs: seq<MatchLog>): Option<seq<LogRow>> {
    if logs == [] then Some([])
    else match LogParams(logs[0])
      case None => None
      case Some(row) => Prepend([Row(row.executionID, row)], LogRows(logs[1..]))
  }

  function SaveLogs(rows: map<ExecutionID, MatchLog>, logs: seq<MatchLog>, fault: Fault): (map<ExecutionID, MatchLog>, bool) {
    if LogRows(logs).None? then (rows, false) else SaveBatch(rows, LogRows(logs).value, fault)
  }

  method SaveMatchLogs(table: Table<ExecutionID, MatchLog>, logs: seq<MatchLog>, fault: Fault) returns (ok: bool)
    modifies table
    ensures (table.rows, ok) == SaveLogs(old(table.rows), logs, fault)
    ensures ok ==> forall log :: log in logs ==>
              ValidMatchLog(log) && log.executionID in table.rows && table.rows[log.executionID] == StoredLog(log)
  {
    hide ValidMatchLog, StoredLog, LogParams;
    SavedLogs(table.rows, logs, fault);
    var params: seq<LogRow> := [];
    var i := 0;
    PrependNothing(LogRows(logs));
    assert logs[0..] == logs;
    while i < |logs|
      invariant 0 <= i <= |logs| && table.rows == old(table.rows)
      invariant LogRows(logs) == Prepend(params, LogRows(logs[i..]))
    {
      var row := LogParams(logs[i]);
      assert logs[i..][1..] == logs[i + 1..];
      if row.None? {
        return false;
      }
      PrependOne(params, Row(row.value.executionID, row.value), LogRows(logs[i + 1..]));
      params := params + [Row(row.value.executionID, row.value)];
      i := i + 1;
    }
    assert params + [] == params;
    ok := table.Save(params, fault);
  }

  // ----- event rows -----

  function EventParams(e: Event): Option<Event> {
    if !ValidEvent(e) then None
    else Some(e.(marketConfigVersion := if e.marketConfigVersion == 0 then DEFAULT_CONFIG_VERSION else e.marketConfigVersion))
  }

  /** The row of an event: the event, with a version if it had none. */
  function StoredEvent(e: Event): Event {
    if e.marketConfigVersion != 0 then e else e.(marketConfigVersion := 1)
  }

  /** An event is refused exactly when it is invalid; otherwise its row is the event itself, versioned. */
  lemma EventStoredIff(e: Event)
    ensures EventParams(e) == None <==> !ValidEvent(e)
    ensures EventParams(e).Some? ==> EventParams(e) == Some(StoredEvent(e))
  {
    hide ValidEvent;
  }

  type EventRow = Row<EventID, Event>

  function EventRows(events: seq<Event>): Option<seq<EventRow>> {
    if events == [] then Some([])
    else match EventParams(events[0])
      case None => None
      case Some(row) => Prepend([Row(row.eventID, row)], EventRows(events[1..]))
  }

  function SaveEvents(rows: map<EventID, Event>, events: seq<Event>, fault: Fault): (map<EventID, Event>, bool) {
    if EventRows(events).None? then (rows, false) else SaveBatch(rows, EventRows(events).value, fault)
  }

  method SaveOrderEvents(table: Table<EventID, Event>, events: seq<Event>, fault: Fault) returns (ok: bool)
    modifies table
    ensures (table.rows, ok) == SaveEvents(old(table.rows), events, fault)
    ensures ok ==> forall e :: e in events ==> ValidEvent(e) && e.eventID in table.rows && table.rows[e.eventID] == StoredEvent(e)
  {
    hide ValidEvent;
    SavedEvents(table.rows, events, fault);
    var params: seq<EventRow> := [];
    var i := 0;
    PrependNothing(EventRows(events));
    assert events[0..] == events;
    while i < |events|
      invariant 0 <= i <= |events| && table.rows == old(table.rows)
      invariant EventRows(events) == Prepend(params, EventRows(events[i..]))
    {
      var row := EventParams(events[i]);
      assert events[i..][1..] == events[i + 1..];
      if row.None? {
        return false;
      }
      PrependOne(params, Row(row.value.eventID, row.value), EventRows(events[i + 1..]));
      params := params + [Row(row.value.eventID, row.value)];
      i := i + 1;
    }
    assert params + [] == params;
    ok := table.Save(params, fault);
  }

  // ----- laws -----

  ghost predicate Within<K, R>(a: map<K, R>, b: map<K, R>) {
    forall k :: k in a ==> k in b && b[k] == a[k]
  }

  function TableOf<K, R>(batch: seq<Row<K, R>>): map<K, R> {
    if batch == [] then map[] else TableOf(batch[1..])[batch[0].key := batch[0].value]
  }

  ghost predicate DistinctKeys<K, R>(batch: seq<Row<K, R>>) {
    forall i, j :: 0 <= i < j < |batch| ==> batch[i].key != batch[j].key
  }

  /** Two entries that cannot both be stored. */
  ghost predicate Clash<K, R>(a: Row<K, R>, b: Row<K, R>) {
    a.key == b.key && a.value != b.value
  }

  /** A batch is refused exactly when one of its rows clashes with a stored row or an earlier row of the batch. */
  lemma {:induction false} RefusedIffClash<K, R>(rows: map<K, R>, batch: seq<Row<K, R>>)
    ensures InsertAll(rows, batch) == None <==>
              || (exists i :: 0 <= i < |batch| && batch[i].key in rows && rows[batch[i].key] != batch[i].value)
              || (exists i, j :: 0 <= i < j < |batch| && Clash(batch[i], batch[j]))
    decreases |batch|
  {
    if batch != [] {
      var b, rest := batch[0], batch[1..];
      var next := if b.key in rows then rows else rows[b.key := b.value];
      RefusedIffClash(next, rest);
      forall i | 0 < i < |batch| ensures batch[i] == rest[i - 1] {
      }
      if b.key in rows && rows[b.key] != b.value {
        assert batch[0].key in rows && rows[batch[0].key] != batch[0].value;
      } else {
        assert InsertAll(rows, batch) == InsertAll(next, rest);
        if i :| 0 <= i < |rest| && rest[i].key in next && next[rest[i].key] != rest[i].value {
          assert batch[i + 1] == rest[i];
          if rest[i].key !in rows {
            assert Clash(batch[0], batch[i + 1]);
          }
        }
        if i, j :| 0 <= i < j < |rest| && Clash(rest[i], rest[j]) {
          assert Clash(batch[i + 1], batch[j + 1]);
        }
        if i, j :| 0 <= i < j < |batch| && Clash(batch[i], batch[j]) {
          if i == 0 {
            assert rest[j - 1].key in next;
            assert next[rest[j - 1].key] != rest[j - 1].value;
          } else {
            assert Clash(rest[i - 1], rest[j - 1]);
          }
        }
      }
    }
  }

  /** What is stored stays stored, unchanged, and a stored batch is exactly added. */
  lemma {:induction false} InsertAdds<K, R>(rows: map<K, R>, batch: seq<Row<K, R>>)
    requires InsertAll(rows, batch).Some?
    ensures var next := InsertAll(rows, batch).value;
            && Within(rows, next) && next == rows + TableOf(batch) && Within(TableOf(batch), next)
    decreases |batch|
  {
    if batch != [] {
      var mid := rows[batch[0].key := batch[0].value];
      assert batch[0].key in rows ==> mid == rows;
      InsertAdds(mid, batch[1..]);
      assert mid + TableOf(batch[1..]) == rows + TableOf(batch);
    }
  }

  /** After a transaction that is not refused every row of its batch is in the table. */
  lemma {:induction false} InsertedAll<K, R>(rows: map<K, R>, batch: seq<Row<K, R>>)
    requires InsertAll(rows, batch).Some?
    ensures forall i :: 0 <= i < |batch| ==>
              batch[i].key in InsertAll(rows, batch).value && InsertAll(rows, batch).value[batch[i].key] == batch[i].value
    decreases |batch|
  {
    if batch != [] {
      var mid := rows[batch[0].key := batch[0].value];
      assert batch[0].key in rows ==> mid == rows;
      InsertedAll(mid, batch[1..]);
      InsertAdds(mid, batch[1..]);
      assert forall i :: 0 < i < |batch| ==> batch[i] == batch[1..][i - 1];
    }
  }

  lemma SavedAll<K, R>(rows: map<K, R>, batch: seq<Row<K, R>>, fault: Fault)
    ensures var (next, ok) := SaveBatch(rows, batch, fault);
            ok ==> forall i :: 0 <= i < |batch| ==> batch[i].key in next && next[batch[i].key] == batch[i].value
  {
    if InsertAll(rows, batch).Some? {
      InsertedAll(rows, batch);
    }
  }

  /** A stored batch of events: each event valid and in the table as itself. */
  lemma SavedEvents(rows: map<EventID, Event>, events: seq<Event>, fault: Fault)
    ensures var (next, ok) := SaveEvents(rows, events, fault);
            ok ==> forall e :: e in events ==> ValidEvent(e) && e.eventID in next && next[e.eventID] == StoredEvent(e)
  {
    hide ValidEvent, SaveBatch;
    if EventRows(events).Some? {
      EventRowsAre(events);
      SavedAll(rows, EventRows(events).value, fault);
    }
  }

  lemma {:induction false} EventRowsAre(events: seq<Event>)
    requires EventRows(events).Some?
    ensures var rows := EventRows(events).value;
            |rows| == |events| && forall i :: 0 <= i < |rows| ==>
              ValidEvent(events[i]) && rows[i] == Row(events[i].eventID, StoredEvent(events[i]))
    decreases |events|
  {
    hide ValidEvent;
    if events != [] {
      EventStoredIff(events[0]);
      EventRowsAre(events[1..]);
      assert forall i :: 0 < i < |events| ==> events[i] == events[1..][i - 1];
    }
  }

  /** A stored batch of executions: each log valid and in the table as its row. */
  lemma SavedLogs(rows: map<ExecutionID, MatchLog>, logs: seq<MatchLog>, fault: Fault)
    ensures var (next, ok) := SaveLogs(rows, logs, fault);
            ok ==> forall log :: log in logs ==>
                     ValidMatchLog(log) && log.executionID in next && next[log.executionID] == StoredLog(log)
  {
    hide ValidMatchLog, SaveBatch, StoredLog;
    if LogRows(logs).Some? {
      LogRowsAre(logs);
      SavedAll(rows, LogRows(logs).value, fault);
    }
  }

  lemma {:induction false} LogRowsAre(logs: seq<MatchLog>)
    requires LogRows(logs).Some?
    ensures var rows := LogRows(logs).value;
            |rows| == |logs| && forall i :: 0 <= i < |rows| ==>
              ValidMatchLog(logs[i]) && rows[i] == Row(logs[i].executionID, StoredLog(logs[i]))
    decreases |logs|
  {
    if logs != [] {
      if ValidMatchLog(logs[0]) { StoredIff(logs[0]); }
      LogRowsAre(logs[1..]);
      assert forall i :: 0 < i < |logs| ==> logs[i] == logs[1..][i - 1];
    }
  }

  /** Rows that all belong to one consistent table never clash. */
  lemma {:induction false} ConsistentNeverRefused<K, R>(rows: map<K, R>, batch: seq<Row<K, R>>, all: map<K, R>)
    requires Within(rows, all)
    requires forall i :: 0 <= i < |batch| ==> batch[i].key in all && all[batch[i].key] == batch[i].value
    ensures InsertAll(rows, batch).Some? && Within(InsertAll(rows, batch).value, all)
    decreases |batch|
  {
    if batch != [] {
      assert batch[0].key in rows ==> rows[batch[0].key := batch[0].value] == rows;
      ConsistentNeverRefused(rows[batch[0].key := batch[0].value], batch[1..], all);
    }
  }

  /** Saving the same batch again, as a retry or a replay does, changes nothing and succeeds. */
  lemma SaveIsIdempotent<K, R>(rows: map<K, R>, batch: seq<Row<K, R>>, fault: Fault)
    requires InsertAll(rows, batch).Some? && fault != Lost
    ensures var (next, _) := SaveBatch(rows, batch, fault);
            SaveBatch(next, batch, NoFault) == (next, true)
  {
    InsertAdds(rows, batch);
    var next := InsertAll(rows, batch).value;
    AllStored(rows, batch, next);
  }

  lemma {:induction false} AllStored<K, R>(rows: map<K, R>, batch: seq<Row<K, R>>, next: map<K, R>)
    requires InsertAll(rows, batch) == Some(next)
    ensures InsertAll(next, batch) == Some(next)
    decreases |batch|
  {
    if batch != [] {
      var mid := rows[batch[0].key := batch[0].value];
      assert batch[0].key in rows ==> mid == rows;
      InsertAdds(mid, batch[1..]);
      AllStored(mid, batch[1..], next);
      assert next[batch[0].key := batch[0].value] == next;
    }
  }
}
