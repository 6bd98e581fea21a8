/**
 * The durable command protocol of one worker: journal append, book mutation, execution batch, event
 * batch, acknowledgement; any failure halts, and a restart replays the journal from an empty book.
 */
module Protocol {
  import opened Models
  import opened Numeric
  import opened FlatBook
  import opened Matching
  import opened Journal
  import opened OrderEvents
  import opened Execution
  import opened Stores
  import opened JournalStores

  datatype Tables = Tables(logRows: map<ExecutionID, MatchLog>, eventRows: map<EventID, Event>)

  /** What may go wrong at the two batch commits of one command. */
  datatype SaveFaults = SaveFaults(logs: Fault, events: Fault)

  /** What may go wrong while one event is handled. */
  datatype Faults = Faults(append: Fault, readable: bool, saves: SaveFaults)

  datatype Processed = Processed(book: Book, tables: Tables, ok: bool)

  /**
   * What a plan leaves behind, its executions saved on the way: the book, the execution rows, and the
   * event batch, or None if the command fails.
   */
  function Outcome(plan: Plan, b: Book, logRows: map<ExecutionID, MatchLog>, fault: Fault)
    : (Book, map<ExecutionID, MatchLog>, Option<seq<Event>>)
  {
    match plan
    case Refused => (b, logRows, None)
    case Broken(book) => (book, logRows, None)
    case Planned(matched, logs, final, _, _) =>
      var (rows, saved) := SaveLogs(logRows, logs, fault);
      if !saved then (matched, rows, None)
      else (final, rows, if AllValid(EventsOf(plan)) then Some(EventsOf(plan)) else None)
  }

  /** One journalled command taken through the book and both stores. */
  function Process(m: Market, b: Book, t: Tables, c: Command, f: SaveFaults): Processed {
    var (book, logRows, batch) := Outcome(PlanCommand(m, b, c), b, t.logRows, f.logs);
    match batch
    case None => Processed(book, Tables(logRows, t.eventRows), false)
    case Some(events) =>
      var (eventRows, recorded) := SaveEvents(t.eventRows, events, f.events);
      Processed(book, Tables(logRows, eventRows), recorded)
  }

  /** Replay of the rows from i on; it stops at the first failure. */
  function ReplayFrom(m: Market, b: Book, t: Tables, cmds: seq<Command>, i: nat, last: int, faults: nat -> SaveFaults): Processed
    requires i <= |cmds|
    decreases |cmds| - i
  {
    if i == |cmds| then Processed(b, t, true)
    else if cmds[i].ticker != m.ticker || cmds[i].sequence <= last then Processed(b, t, false)
    else
      var p := Process(m, b, t, cmds[i], faults(i));
      if !p.ok then p else ReplayFrom(m, p.book, p.tables, cmds, i + 1, cmds[i].sequence, faults)
  }

  // ----- requests -----

  datatype RequestType = NewOrder | EditOrder | CancelOrder

  datatype Request = Request(
    kind: RequestType,
    ticker: string,
    newOrder: Option<CreateOrderRequest>,
    editReq: Option<EditOrderRequest>,
    cancelReq: Option<CancelOrderRequest>)

  /** The command an event asks for; None when its payload is missing or names another ticker. */
  function CommandFromEvent(m: Market, ev: Request): Option<Command> {
    match ev.kind
    case NewOrder =>
      if ev.newOrder.None? || ev.newOrder.value.ticker != m.ticker then None
      else Some(Command(ev.newOrder.value.commandID, m.ticker, 0, CreateCommand, ZeroTime, m.precision.configVersion,
                        ev.newOrder, None, None))
    case EditOrder =>
      if ev.editReq.None? || ev.editReq.value.ticker != m.ticker then None
      else Some(Command(ev.editReq.value.commandID, m.ticker, 0, AmendCommand, ZeroTime, m.precision.configVersion,
                        None, ev.editReq, None))
    case CancelOrder =>
      if ev.cancelReq.None? || ev.cancelReq.value.ticker != m.ticker then None
      else Some(Command(ev.cancelReq.value.commandID, m.ticker, 0, CancelCommand, ZeroTime, m.precision.configVersion,
                        None, None, ev.cancelReq))
  }

  // ----- one worker and its durable state -----

  /** live: the last replay completed and nothing has failed since. */
  datatype Sys = Sys(journal: JournalState, tables: Tables, book: Book, live: bool)

  const INITIAL := Sys(JournalState([], map[]), Tables(map[], map[]), EMPTY_BOOK, false)

  datatype Ack = Success | Halted | Misrouted

  /** One command event handled from start to acknowledgement. */
  function Handle(m: Market, s: Sys, ev: Request, now: int, f: Faults): (Sys, Ack) {
    if !s.live then (s, Halted)
    else if ev.ticker != "" && ev.ticker != m.ticker then (s, Misrouted)
    else match CommandFromEvent(m, ev)
      case None => (s, Success)
      case Some(c) =>
        var (journal, appended) := AppendTo(s.journal, c, now, f.append, f.readable);
        match appended
        case Err(_) => (Sys(journal, s.tables, s.book, false), Halted)
        case Ok(AppendResult(row, inserted)) =>
          if !inserted then (Sys(journal, s.tables, s.book, true), Success)
          else
            var p := Process(m, s.book, s.tables, row, f.saves);
            (Sys(journal, p.tables, p.book, p.ok), if p.ok then Success else Halted)
  }

  /** A new process: an empty book, replayed from the journal. */
  function Restart(m: Market, s: Sys, faults: nat -> SaveFaults): Sys {
    var p := ReplayFrom(m, EMPTY_BOOK, s.tables, TickerRows(s.journal.rows, m.ticker), 0, 0, faults);
    Sys(s.journal, p.tables, p.book, p.ok)
  }

  // ----- runs -----

  /** Anything that can happen around one worker, the workers of other tickers included. */
  datatype Action =
    | Submit(ev: Request, now: int, faults: Faults)
    | Reboot(saveFaults: nat -> SaveFaults)
    | HaltedElsewhere
    | OtherAppend(command: Command, now: int, fault: Fault, readable: bool)
    | OtherLogs(logBatch: seq<LogRow>, fault: Fault)
    | OtherEvents(eventBatch: seq<EventRow>, fault: Fault)

  /** The workers of other tickers only write rows of their own tickers. */
  ghost predicate Foreign(m: Market, a: Action) {
    match a
    case OtherAppend(c, _, _, _) => c.ticker != m.ticker
    case OtherLogs(batch, _) => forall i :: 0 <= i < |batch| ==> batch[i].key.ticker != m.ticker
    case OtherEvents(batch, _) => forall i :: 0 <= i < |batch| ==> batch[i].key.ticker != m.ticker
    case _ => true
  }

  function Act(m: Market, s: Sys, a: Action): Sys {
    match a
    case Submit(ev, now, f) => Handle(m, s, ev, now, f).0
    case Reboot(f) => Restart(m, s, f)
    case HaltedElsewhere => s.(live := false)
    case OtherAppend(c, now, fault, readable) => s.(journal := AppendTo(s.journal, c, now, fault, readable).0)
    case OtherLogs(batch, fault) => s.(tables := s.tables.(logRows := SaveBatch(s.tables.logRows, batch, fault).0))
    case OtherEvents(batch, fault) => s.(tables := s.tables.(eventRows := SaveBatch(s.tables.eventRows, batch, fault).0))
  }

  function Perform(m: Market, actions: seq<Action>): Sys {
    if actions == [] then INITIAL
    else Act(m, Perform(m, actions[..|actions| - 1]), actions[|actions| - 1])
  }
}
