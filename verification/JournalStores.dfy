/**
 * The journal table: one row per command id, a sequence counter per ticker that advances even when
 * the row already exists, and a listing ordered by sequence.
 */
module JournalStores {
  import opened Models
  import opened Numeric
  import opened Journal
  import opened Stores

  datatype JournalState = JournalState(rows: seq<Command>, last: map<string, int>)

  datatype JournalError = Invalid | Unavailable | Conflict

  datatype AppendResult = AppendResult(command: Command, inserted: bool)

  function FindCommand(rows: seq<Command>, id: string): Option<Command> {
    if rows == [] then None else if rows[0].commandID == id then Some(rows[0]) else FindCommand(rows[1..], id)
  }

  function Last(j: JournalState, ticker: string): int {
    if ticker in j.last then j.last[ticker] else 0
  }

  /** The command as it would be journalled now. */
  function Journalled(j: JournalState, command: Command, now: int): Command {
    command.(marketConfigVersion := EffectiveConfigVersion(command),
             sequence := Last(j, command.ticker) + 1, recordedAt := At(now))
  }

  /**
   * One append. The insert statement advances the ticker's counter whether or not the id is new; it may
   * be lost, or land while reporting an error, and reading back an existing row may fail.
   */
  function AppendTo(j: JournalState, command: Command, now: int, fault: Fault, readable: bool)
    : (JournalState, Result<AppendResult, JournalError>)
  {
    var row := Journalled(j, command, now);
    if !Validate(row) then (j, Err(Invalid))
    else if fault == Lost then (j, Err(Unavailable))
    else
      var existing := FindCommand(j.rows, row.commandID);
      var next := JournalState(if existing.Some? then j.rows else j.rows + [row], j.last[row.ticker := row.sequence]);
      if fault == Landed then (next, Err(Unavailable))
      else if existing.None? then (next, Ok(AppendResult(row, true)))
      else if !readable then (next, Err(Unavailable))
      else if SamePayload(row, existing.value) then (next, Ok(AppendResult(existing.value, false)))
      else (next, Err(Conflict))
  }

  /** The rows of one ticker in insertion order. */
  function TickerRows(rows: seq<Command>, ticker: string): seq<Command> {
    if rows == [] then []
    else TickerRows(rows[..|rows| - 1], ticker) + (if rows[|rows| - 1].ticker == ticker then [rows[|rows| - 1]] else [])
  }

  // ----- invariant -----

  ghost predicate ValidRow(j: JournalState, c: Command) {
    && Validate(c) && c.marketConfigVersion > 0 && c.recordedAt != ZeroTime
    && 1 <= c.sequence <= Last(j, c.ticker)
  }

  ghost predicate UniqueIDs(rows: seq<Command>) {
    forall i, k :: 0 <= i < k < |rows| ==> rows[i].commandID != rows[k].commandID
  }

  /** Later rows of a ticker carry strictly larger sequences; gaps are allowed. */
  ghost predicate Increasing(rows: seq<Command>) {
    forall i, k :: 0 <= i < k < |rows| && rows[i].ticker == rows[k].ticker ==> rows[i].sequence < rows[k].sequence
  }

  ghost predicate JournalOK(j: JournalState) {
    && (forall i :: 0 <= i < |j.rows| ==> ValidRow(j, j.rows[i]))
    && UniqueIDs(j.rows) && Increasing(j.rows)
    && (forall t :: t in j.last ==> j.last[t] >= 0)
  }

  lemma FindCommandFinds(rows: seq<Command>, id: string)
    ensures FindCommand(rows, id) == None <==> forall i :: 0 <= i < |rows| ==> rows[i].commandID != id
    ensures FindCommand(rows, id).Some? ==>
              exists i :: 0 <= i < |rows| && rows[i] == FindCommand(rows, id).value && rows[i].commandID == id
  {
    if rows != [] && rows[0].commandID != id {
      FindCommandFinds(rows[1..], id);
      if FindCommand(rows[1..], id).Some? {
        var i :| 0 <= i < |rows[1..]| && rows[1..][i] == FindCommand(rows, id).value;
        assert rows[i + 1] == FindCommand(rows, id).value;
      } else {
        forall i | 0 <= i < |rows| ensures rows[i].commandID != id {
          if i > 0 { assert rows[i] == rows[1..][i - 1]; }
        }
      }
    }
  }

  /** Every append keeps the journal in order and never touches a row that is already there. */
  lemma AppendKeepsOrder(j: JournalState, command: Command, now: int, fault: Fault, readable: bool)
    requires JournalOK(j)
    ensures var (next, _) := AppendTo(j, command, now, fault, readable);
            JournalOK(next) && j.rows <= next.rows && |next.rows| <= |j.rows| + 1
  {
    var row := Journalled(j, command, now);
    FindCommandFinds(j.rows, row.commandID);
    var (next, _) := AppendTo(j, command, now, fault, readable);
    if next.rows != j.rows {
      RowAdded(j, row);
    } else {
      CounterAdvances(j, next);
    }
    hide JournalOK;
  }

  lemma CounterAdvances(j: JournalState, next: JournalState)
    requires JournalOK(j) && next.rows == j.rows
    requires forall t :: Last(j, t) <= Last(next, t)
    ensures JournalOK(next)
  {
    forall i | 0 <= i < |j.rows| ensures ValidRow(next, j.rows[i]) {
      assert ValidRow(j, j.rows[i]);
    }
    forall t | t in next.last ensures next.last[t] >= 0 {
      assert Last(j, t) <= Last(next, t);
    }
  }

  lemma RowAdded(j: JournalState, row: Command)
    requires JournalOK(j) && Validate(row) && row.marketConfigVersion > 0 && row.recordedAt != ZeroTime
    requires row.sequence == Last(j, row.ticker) + 1
    requires forall i :: 0 <= i < |j.rows| ==> j.rows[i].commandID != row.commandID
    ensures JournalOK(JournalState(j.rows + [row], j.last[row.ticker := row.sequence]))
  {
    var next := JournalState(j.rows, j.last[row.ticker := row.sequence]);
    CounterAdvances(j, next);
    forall i | 0 <= i < |j.rows| ensures j.rows[i].ticker == row.ticker ==> j.rows[i].sequence < row.sequence {
      assert ValidRow(j, j.rows[i]);
    }
  }

  /** A row that holds a request: its id, ticker, type and payload, under its version or the default one. */
  predicate IsRowOf(row: Command, request: Command) {
    && row.commandID == request.commandID && row.ticker == request.ticker && row.kind == request.kind
    && row.create == request.create && row.amend == request.amend && row.cancel == request.cancel
    && row.marketConfigVersion == if request.marketConfigVersion != 0 then request.marketConfigVersion else 1
  }

  /** For a journalled row, the same payload means that the row holds the request. */
  lemma SamePayloadIff(j: JournalState, row: Command, request: Command)
    requires ValidRow(j, row)
    ensures SamePayload(request, row) <==> IsRowOf(row, request)
  {
    hide Validate;
  }

  /**
   * What an append reports. Success means the journal now holds the request: as a new row with the next
   * sequence and the time of the insert, or, unchanged, as the row an equal earlier request left. A
   * conflict means the id was already used for something else.
   */
  lemma AppendReports(j: JournalState, command: Command, now: int, fault: Fault, readable: bool)
    requires JournalOK(j)
    ensures var (next, result) := AppendTo(j, command, now, fault, readable);
            match result
            case Ok(AppendResult(c, inserted)) =>
              && IsRowOf(c, command) && FindCommand(next.rows, command.commandID) == Some(c)
              && (inserted ==> next.rows == j.rows + [c] && c.sequence == Last(j, c.ticker) + 1 && c.recordedAt == At(now)
                               && FindCommand(j.rows, c.commandID) == None)
              && (!inserted ==> next.rows == j.rows && c in j.rows)
            case Err(Conflict) =>
              && next.rows == j.rows && FindCommand(j.rows, command.commandID).Some?
              && !IsRowOf(FindCommand(j.rows, command.commandID).value, command)
            case Err(_) => true
  {
    hide ValidCreate, ValidAmend, ValidCancel, UniqueIDs, Increasing;
    var row := Journalled(j, command, now);
    FindCommandFinds(j.rows, row.commandID);
    var existing := FindCommand(j.rows, row.commandID);
    if existing == None {
      FindLast(j.rows, row);
    } else {
      var i :| 0 <= i < |j.rows| && j.rows[i] == existing.value;
      assert ValidRow(j, j.rows[i]);
      SamePayloadIff(j, existing.value, row);
    }
  }

  /**
   * A new id is journalled exactly when its command is well-formed and the insert is not lost, and is
   * acknowledged exactly when nothing fails.
   */
  lemma AppendFresh(j: JournalState, command: Command, now: int, fault: Fault, readable: bool)
    requires FindCommand(j.rows, command.commandID).None?
    ensures var (next, result) := AppendTo(j, command, now, fault, readable);
            && (result.Ok? <==> Validate(command) && fault == NoFault)
            && (result.Ok? ==> result.value.inserted && next.rows == j.rows + [result.value.command])
            && (!Validate(command) ==> result == Err(Invalid) && next == j)
            && (fault == Lost ==> next == j)
            && (Validate(command) && fault != Lost ==> next.rows == j.rows + [Journalled(j, command, now)])
  {
    hide ValidCreate, ValidAmend, ValidCancel;
  }

  lemma {:induction false} FindLast(rows: seq<Command>, c: Command)
    requires FindCommand(rows, c.commandID) == None
    ensures FindCommand(rows + [c], c.commandID) == Some(c)
  {
    if rows != [] {
      assert (rows + [c])[1..] == rows[1..] + [c];
      FindLast(rows[1..], c);
    }
  }

  /**
   * An append whose id is journalled adds nothing. It succeeds exactly when the row holds the request and
   * nothing fails, and it is a conflict exactly when a well-formed request differs from the row. The
   * ticker's counter advances all the same.
   */
  lemma AppendSeen(j: JournalState, command: Command, now: int, fault: Fault, readable: bool)
    requires JournalOK(j) && FindCommand(j.rows, command.commandID).Some?
    ensures var (next, result) := AppendTo(j, command, now, fault, readable);
            var existing := FindCommand(j.rows, command.commandID).value;
            && next.rows == j.rows
            && (result.Ok? <==> fault == NoFault && readable && IsRowOf(existing, command))
            && (result.Ok? ==> result.value == AppendResult(existing, false))
            && (result == Err(Conflict) <==>
                  fault == NoFault && readable && Validate(command) && !IsRowOf(existing, command))
            && Last(next, command.ticker) == Last(j, command.ticker) + (if Validate(command) && fault != Lost then 1 else 0)
  {
    hide ValidCreate, ValidAmend, ValidCancel, UniqueIDs, Increasing;
    FindCommandFinds(j.rows, command.commandID);
    var i :| 0 <= i < |j.rows| && j.rows[i] == FindCommand(j.rows, command.commandID).value;
    assert ValidRow(j, j.rows[i]);
    SamePayloadIff(j, j.rows[i], Journalled(j, command, now));
  }

  // ----- listing -----

  /** Strictly increasing positive sequences of one ticker: what Replay asks of the rows it is given. */
  ghost predicate Replayable(rows: seq<Command>, ticker: string) {
    && (forall i :: 0 <= i < |rows| ==> rows[i].ticker == ticker && rows[i].sequence > 0)
    && (forall i, k :: 0 <= i < k < |rows| ==> rows[i].sequence < rows[k].sequence)
  }

  lemma {:induction false} TickerRowsFrom(rows: seq<Command>, ticker: string, i: int)
    requires 0 <= i < |TickerRows(rows, ticker)|
    ensures TickerRows(rows, ticker)[i].ticker == ticker
    ensures exists k :: 0 <= k < |rows| && rows[k] == TickerRows(rows, ticker)[i]
  {
    var n := |rows| - 1;
    if i < |TickerRows(rows[..n], ticker)| {
      TickerRowsFrom(rows[..n], ticker, i);
      var k :| 0 <= k < n && rows[..n][k] == TickerRows(rows, ticker)[i];
      assert rows[k] == TickerRows(rows, ticker)[i];
    } else {
      assert rows[n] == TickerRows(rows, ticker)[i];
    }
  }

  /** The journal rows of a ticker are never refused by Replay. */
  lemma {:induction false} ListedIsReplayable(rows: seq<Command>, ticker: string)
    requires Increasing(rows) && forall i :: 0 <= i < |rows| ==> rows[i].sequence >= 1
    ensures Replayable(TickerRows(rows, ticker), ticker)
  {
    if rows != [] {
      var n := |rows| - 1;
      ListedIsReplayable(rows[..n], ticker);
      var front := TickerRows(rows[..n], ticker);
      forall i | 0 <= i < |front| && rows[n].ticker == ticker ensures front[i].sequence < rows[n].sequence {
        TickerRowsFrom(rows[..n], ticker, i);
        var k :| 0 <= k < n && rows[..n][k] == front[i];
        assert rows[k].ticker == rows[n].ticker;
      }
    }
  }

  function InsertBySequence(rows: seq<Command>, c: Command): seq<Command> {
    if rows == [] || rows[|rows| - 1].sequence <= c.sequence then rows + [c]
    else InsertBySequence(rows[..|rows| - 1], c) + [rows[|rows| - 1]]
  }

  lemma InsertedLast(rows: seq<Command>, ticker: string, i: nat)
    requires i < |rows| && Increasing(rows) && forall k :: 0 <= k < |rows| ==> rows[k].sequence >= 1
    ensures TickerRows(rows[..i + 1], ticker) ==
            if rows[i].ticker == ticker then InsertBySequence(TickerRows(rows[..i], ticker), rows[i])
            else TickerRows(rows[..i], ticker)
  {
    var front, both := TickerRows(rows[..i], ticker), TickerRows(rows[..i + 1], ticker);
    assert rows[..i + 1][..i] == rows[..i];
    if rows[i].ticker == ticker {
      ListedIsReplayable(rows[..i + 1], ticker);
      assert both == front + [rows[i]];
      assert front != [] ==> both[|front| - 1].sequence < both[|front|].sequence;
    }
  }

  class Store {
    var rows: seq<Command>
    var last: map<string, int>

    constructor ()
      ensures State() == JournalState([], map[])
    {
      rows, last := [], map[];
    }

    function State(): JournalState
      reads this
    {
      JournalState(rows, last)
    }

    method Append(command: Command, now: int, fault: Fault, readable: bool) returns (result: Result<AppendResult, JournalError>)
      modifies this
      ensures (State(), result) == AppendTo(old(State()), command, now, fault, readable)
    {
      var c := command.(marketConfigVersion := EffectiveConfigVersion(command));
      var row := c.(sequence := Last(State(), c.ticker) + 1, recordedAt := At(now));
      if !Validate(row) {
        return Err(Invalid);
      }
      if fault == Lost {
        return Err(Unavailable);
      }
      last := last[row.ticker := row.sequence];
      var existing := FindCommand(rows, row.commandID);
      if existing.None? {
        rows := rows + [row];
        return if fault == Landed then Err(Unavailable) else Ok(AppendResult(row, true));
      }
      if fault == Landed || !readable {
        return Err(Unavailable);
      }
      if !SamePayload(row, existing.value) {
        return Err(Conflict);
      }
      return Ok(AppendResult(existing.value, false));
    }

    /** The rows of a ticker in the order of their sequences: exactly the order of insertion. */
    method ListTicker(ticker: string) returns (commands: seq<Command>)
      requires JournalOK(State())
      ensures commands == TickerRows(rows, ticker) && Replayable(commands, ticker)
    {
      hide Increasing, UniqueIDs, InsertBySequence;
      commands := [];
      var i := 0;
      while i < |rows|
        invariant 0 <= i <= |rows| && commands == TickerRows(rows[..i], ticker)
      {
        InsertedLast(rows, ticker, i);
        if rows[i].ticker == ticker {
          commands := InsertBySequence(commands, rows[i]);
        }
        i := i + 1;
      }
      assert rows[..i] == rows;
      ListedIsReplayable(rows, ticker);
    }
  }
}
