/**
 * The worker that owns one ticker's book: it journals each command, applies it, stores its rows and
 * acknowledges it, and after a restart replays the journal. Each method is proved to be one step of
 * module Protocol, whose runs are the subject of module Recovery.
 */
module Worker {
  import opened Models
  import opened Numeric
  import opened FlatBook
  import opened Levels
  import opened OrderBooks
  import opened Matching
  import opened MatchingLaws
  import opened Journal
  import opened OrderEvents
  import opened Execution
  import opened BookLaws
  import opened Stores
  import opened JournalStores
  import opened Runs
  import opened Lifecycle
  import opened Protocol
  import opened RowIdentity
  import opened Recovery

  datatype Failure = EngineHalted | JournalFailed(error: JournalError) | CommandFailed | EventsFailed | InvalidReplaySequence

  /** The first fatal error of the engine; it never resumes. */
  class EngineState {
    var cause: Option<Failure>

    constructor ()
      ensures cause == None
    {
      cause := None;
    }

    method Halt(failure: Option<Failure>)
      modifies this
      ensures cause == if old(cause).Some? then old(cause) else Some(if failure.Some? then failure.value else EngineHalted)
    {
      var first := if failure.Some? then failure.value else EngineHalted;
      if cause == None {
        cause := Some(first);
      }
    }
  }

  /** Everything a settled order announces. */
  function SettledChanges(order: Order, isNew: bool, first: seq<Change>, g: Matched): seq<Change> {
    first + MakerChanges(g.fills) + TakerChanges(order, order.amount - g.taker.amount, g.taker.amount)
    + (if isNew then RemainderChanges(order, g.taker.amount) else [])
  }

  /** What a successful match leaves: the book with the residual at rest. */
  function FinalBook(matched: Book, order: Order, isNew: bool, g: Matched): Book {
    if g.taker.amount > 0 && !(isNew && order.orderType == OrderType.Market) then Rest(matched, g.taker) else matched
  }

  /** The exits of settling an order, one by one. */
  lemma SettleExits(m: Market, b: Book, c: Command, order: Order, isNew: bool, first: seq<Change>,
                    logRows: map<ExecutionID, MatchLog>, fault: Fault)
    ensures var side := order.side.Opposite();
            var g := Greedy(m.precision, m.ticker, b.On(side), order, 0);
            var matched := b.With(side, g.opposite);
            var (rows, saved) := SaveLogs(logRows, g.logs, fault);
            var batch := Stamped(Versioned(m, c), SettledChanges(order, isNew, first, g));
            Outcome(PlanMatch(m, b, c, order, isNew, first), b, logRows, fault) ==
              (if !g.ok then (matched, logRows, None)
               else if !saved then (matched, rows, None)
               else (FinalBook(matched, order, isNew, g), rows, if AllValid(batch) then Some(batch) else None))
  {
    hide Greedy, SaveLogs, AllValid, Stamped, MakerChanges, TakerChanges, RemainderChanges, Rest;
  }

  lemma SettleSound(m: Market, b: Book, order: Order, isNew: bool)
    requires SoundBook(b) && Incoming(order) && Absent(b, order.id) && (!isNew ==> order.orderType == Limit)
    ensures var side := order.side.Opposite();
            var g := Greedy(m.precision, m.ticker, b.On(side), order, 0);
            var matched := b.With(side, g.opposite);
            && SoundBook(matched) && (g.ok ==> SoundBook(FinalBook(matched, order, isNew, g))) && Absent(matched, order.id)
            && g.taker == order.(amount := g.taker.amount) && g.taker.amount <= order.amount
            && (g.taker.amount > 0 ==> Restable(order.side, g.taker))
  {
    var side := order.side.Opposite();
    var g := Greedy(m.precision, m.ticker, b.On(side), order, 0);
    MatchedBook(m, b, order);
    hide SoundBook, Greedy, Stops;
    if g.ok && g.taker.amount > 0 && order.orderType == Limit {
      RestSound(b.With(side, g.opposite), g.taker);
    }
  }

  /** A plan without executions: only the batch can fail. */
  lemma WithoutMatch(plan: Plan, b: Book, logRows: map<ExecutionID, MatchLog>, fault: Fault)
    ensures plan.Planned? && plan.logs == [] ==>
              var batch := Stamped(plan.command, plan.changes);
              Outcome(plan, b, logRows, fault) == (plan.final, logRows, if AllValid(batch) then Some(batch) else None)
  {
    hide Stamped, AllValid;
  }

  /** The outcome does not depend on the book before, unless the command is refused. */
  lemma RematchOutcome(m: Market, b: Book, c: Command, logRows: map<ExecutionID, MatchLog>, fault: Fault)
    requires Accepts(m, c) && c.kind == AmendCommand
    requires var edit := EditOf(b, c.amend.value, c.recordedAt); edit.Some? && edit.value.requiresRematch
    ensures var e := EditOf(b, c.amend.value, c.recordedAt).value;
            var mid := ApplyEdit(b, e);
            Outcome(PlanCommand(m, b, c), b, logRows, fault)
            == Outcome(PlanMatch(m, mid, c, e.after, false, [AmendedChange(e.before, e.after)]), mid, logRows, fault)
  {
    hide Greedy, SaveLogs, AllValid, Stamped, MakerChanges, TakerChanges, EditOf, ApplyEdit, Rest;
  }

  lemma CreateOutcome(m: Market, b: Book, c: Command)
    requires Accepts(m, c) && c.kind == CreateCommand
    ensures PlanCommand(m, b, c) == PlanMatch(m, b, c, CreateOrderAt(c.create.value, c.recordedAt), true, [])
  {
  }

  lemma CancelSound(b: Book, id: OrderID)
    requires SoundBook(b)
    ensures Lookup(b, id).Some? ==> SoundBook(Withdraw(b, Lookup(b, id).value))
  {
    LookupSound(b, id);
    if Lookup(b, id).Some? {
      WithdrawSound(b, Lookup(b, id).value);
    }
  }

  /** A command of a fresh journal creates an identity that the commands before it left nowhere. */
  lemma FreshIsAbsent(m: Market, cmds: seq<Command>, n: nat)
    requires n < |cmds| && FreshIDs(cmds) && Replayed(m, cmds[..n]).ok && CreatedID(cmds[n]).Some?
    ensures Absent(Replayed(m, cmds[..n]).book, CreatedID(cmds[n]).value)
  {
    var next := cmds[..n + 1];
    assert next[..n] == cmds[..n];
    assert forall i :: 0 <= i < |next| ==> next[i] == cmds[i];
    FreshPrefix(next);
    var lives := EventSourcing(m, cmds[..n]);
    hide SoundBook, Mirrors, Replayed;
    UnseenIsAbsent(lives, Replayed(m, cmds[..n]).book, CreatedID(cmds[n]).value);
  }

  /** The row an event inserts, if it inserts one, creates no identity that is on the book. */
  ghost predicate BringsFresh(m: Market, s: Sys, ev: Request, now: int, f: Faults) {
    var request := CommandFromEvent(m, ev);
    s.live && (ev.ticker == "" || ev.ticker == m.ticker) && request.Some? ==>
      var appended := AppendTo(s.journal, request.value, now, f.append, f.readable).1;
      appended.Ok? && appended.value.inserted && CreatedID(appended.value.command).Some? ==>
        Absent(s.book, CreatedID(appended.value.command).value)
  }

  /** While the journal stays free of repeated identities, no event brings one that is on the book. */
  lemma FreshJournal(m: Market, s: Sys, ev: Request, now: int, f: Faults)
    requires Inv(m, s) && FreshIDs(JournalOf(m, Handle(m, s, ev, now, f).0))
    ensures BringsFresh(m, s, ev, now, f)
  {
    hide NothingElse, OnlyAdds, Replayed, Process, AppendTo, TickerRows, JournalOK, FreshIDs, Absent, LogTable, EventTable, OwnLogs, OwnEvents;
    var request := CommandFromEvent(m, ev);
    if s.live && (ev.ticker == "" || ev.ticker == m.ticker) && request.Some? {
      var appended := AppendTo(s.journal, request.value, now, f.append, f.readable).1;
      AppendGrows(m, s.journal, request.value, now, f.append, f.readable);
      if appended.Ok? && appended.value.inserted && CreatedID(appended.value.command).Some? {
        var before, after := JournalOf(m, s), JournalOf(m, Handle(m, s, ev, now, f).0);
        assert after == before + [appended.value.command];
        assert after[..|before|] == before && after[|before|] == appended.value.command;
        FreshIsAbsent(m, after, |before|);
      }
    }
  }

  /**
   * Every iteration of the worker's loop in every run finds what it requires, as long as the journal the
   * run ends with repeats no identity: so the iterations compose into the runs of the protocol.
   */
  lemma EveryIterationIsFresh(m: Market, actions: seq<Action>)
    requires forall i :: 0 <= i < |actions| ==> Foreign(m, actions[i])
    requires actions != [] && actions[|actions| - 1].Submit?
    requires DistinctTakers(JournalOf(m, Protocol.Perform(m, actions))) && FreshIDs(JournalOf(m, Protocol.Perform(m, actions)))
    ensures var last := actions[|actions| - 1];
            BringsFresh(m, Protocol.Perform(m, actions[..|actions| - 1]), last.ev, last.now, last.faults)
  {
    hide DistinctTakers, FreshIDs, BringsFresh, Inv, Handle;
    var front, last := actions[..|actions| - 1], actions[|actions| - 1];
    JournalGrows(m, actions);
    TakersPrefix(JournalOf(m, Protocol.Perform(m, front)), JournalOf(m, Protocol.Perform(m, actions)));
    EveryRunRecovers(m, front);
    FreshJournal(m, Protocol.Perform(m, front), last.ev, last.now, last.faults);
  }

  lemma TakersPrefix(front: seq<Command>, all: seq<Command>)
    requires front <= all && DistinctTakers(all)
    ensures DistinctTakers(front)
  {
    assert forall i :: 0 <= i < |front| ==> front[i] == all[i];
  }

  /** A command that went through advances the run. */
  lemma ProcessAdvances(m: Market, cmds: seq<Command>, n: nat, t: Tables, f: SaveFaults)
    requires n < |cmds| && Replayed(m, cmds[..n]).ok
    ensures var p := Process(m, Replayed(m, cmds[..n]).book, t, cmds[n], f);
            p.ok ==> Replayed(m, cmds[..n + 1]).ok && Replayed(m, cmds[..n + 1]).book == p.book
  {
    assert cmds[..n + 1][..n] == cmds[..n];
    var plan := PlanCommand(m, Replayed(m, cmds[..n]).book, cmds[n]);
    hide PlanCommand, LogRows, EventRows, AllValid, Stamped;
    if plan.Planned? {
      StoredEventsValid(EventsOf(plan));
    }
  }

  lemma ReplayedNothing(m: Market, cmds: seq<Command>)
    ensures Replayed(m, cmds[..0]) == START
  {
  }

  lemma EmptySound()
    ensures SoundBook(EMPTY_BOOK)
  {
  }

  lemma AbsentFromIndex(book: OrderBook, id: OrderID)
    requires book.Valid() && Absent(book.View(), id)
    ensures id !in book.index
  {
  }

  class BookWorker {
    const market: Market
    const book: OrderBook
    const journal: Store
    const logs: Table<ExecutionID, MatchLog>
    const events: Table<EventID, Event>
    const state: EngineState

    ghost predicate Valid()
      reads book, book.bids, book.asks, book.bids.heap, book.asks.heap, book.bids.heap.levels`index, book.asks.heap.levels`index,
            book.bids.parts, book.asks.parts
    {
      && book.Valid() && SoundBook(book.View())
      && book.ticker == market.ticker && book.precision == market.precision
      && {journal, logs, events, state} !! book.Repr()
    }

    /** A new process: an empty book over the durable stores. */
    constructor (market: Market, journal: Store, logs: Table<ExecutionID, MatchLog>, events: Table<EventID, Event>, state: EngineState)
      ensures Valid() && fresh(book.Repr()) && book.View() == EMPTY_BOOK
      ensures this.market == market && this.journal == journal && this.logs == logs && this.events == events && this.state == state
    {
      hide OrderBook.Valid, SoundBook;
      this.market, this.journal, this.logs, this.events, this.state := market, journal, logs, events, state;
      book := new OrderBook(market.ticker, market.precision);
      EmptySound();
    }

    /** Announces the taker's fill; a new market order's residual is cancelled, any other rests. */
    method SettleResidual(order: Order, incoming: BookOrder, isNew: bool, builder: OrderEventBuilder)
      requires Valid() && builder.Valid() && builder !in book.Repr() && incoming !in book.Repr()
      requires incoming.Snapshot() == order.(amount := incoming.amount) && Absent(book.View(), order.id)
      requires incoming.amount > 0 && !(isNew && order.orderType == OrderType.Market) ==>
                 Restable(order.side, incoming.Snapshot()) && SoundBook(Rest(book.View(), incoming.Snapshot()))
      modifies book.Repr(), builder
      ensures Valid() && fresh(book.Repr() - old(book.Repr()) - {incoming}) && builder.Valid()
      ensures var left := old(incoming.amount);
              && builder.changes == old(builder.changes) + TakerChanges(order, order.amount - left, left)
                                    + (if isNew then RemainderChanges(order, left) else [])
              && book.View() == if left > 0 && !(isNew && order.orderType == OrderType.Market)
                                then Rest(old(book.View()), old(incoming.Snapshot())) else old(book.View())
    {
      hide OrderBook.Valid, SoundBook, Absent, Rest, TakerChanges;
      var filled := order.amount - incoming.amount;
      builder.AddTakerFill(order, filled, incoming.amount);
      if incoming.amount > 0 {
        if isNew && order.orderType == OrderType.Market {
          builder.Add(RemainderCanceledChange(order, incoming.amount));
        } else {
          AbsentFromIndex(book, order.id);
          book.AddOrder(incoming);
          if isNew && filled <= 0 {
            builder.Add(RestingChange(order));
          }
        }
      }
    }

    /** Matches an order that is not on the book and saves its executions. */
    method Execute(order: Order, fault: Fault) returns (incoming: BookOrder, fills: seq<MakerFill>, saved: bool)
      requires Valid() && Incoming(order) && Absent(book.View(), order.id)
      modifies book.Repr(), logs
      ensures Valid() && book.Repr() == old(book.Repr()) && fresh(incoming)
      ensures var side := order.side.Opposite();
              var g := Greedy(market.precision, market.ticker, old(book.View()).On(side), order, 0);
              && book.View() == old(book.View()).With(side, g.opposite)
              && incoming.Snapshot() == g.taker && fills == g.fills
              && (logs.rows, saved) == if g.ok then SaveLogs(old(logs.rows), g.logs, fault) else (old(logs.rows), false)
    {
      hide OrderBook.Valid, SoundBook, Greedy, SaveLogs, Absent;
      SettleSound(market, book.View(), order, order.orderType == OrderType.Market);
      incoming := new BookOrder(order);
      var result := Match(book, incoming);
      fills, saved := result.transitions, false;
      if !result.failed {
        saved := SaveMatchLogs(logs, result.logs, fault);
      }
    }

    /** Matches an order that is not on the book, saves its executions and settles its residual. */
    method Settle(ghost c: Command, order: Order, isNew: bool, builder: OrderEventBuilder, fault: Fault) returns (batch: Option<seq<Event>>)
      requires Valid() && builder.Valid() && builder !in book.Repr()
      requires Incoming(order) && Absent(book.View(), order.id) && (!isNew ==> order.orderType == Limit)
      requires builder.command == Versioned(market, c)
      modifies book.Repr(), logs, builder
      ensures Valid() && fresh(book.Repr() - old(book.Repr()))
      ensures (book.View(), logs.rows, batch)
           == Outcome(PlanMatch(market, old(book.View()), c, order, isNew, old(builder.changes)),
                      old(book.View()), old(logs.rows), fault)
    {
      hide OrderBook.Valid, SoundBook, Greedy, SaveLogs, AllValid, Stamped, Absent, MakerChanges, TakerChanges, RemainderChanges, Rest, Outcome, PlanMatch;
      SettleExits(market, book.View(), c, order, isNew, builder.changes, logs.rows, fault);
      SettleSound(market, book.View(), order, isNew);
      var incoming, fills, saved := Execute(order, fault);
      if !saved {
        return None;
      }
      builder.AddMakerFills(fills);
      SettleResidual(order, incoming, isNew, builder);
      batch := builder.Finish();
    }

    /** Reprices or resizes a resting order; a repriced one is matched again. */
    method ApplyAmend(c: Command, builder: OrderEventBuilder, fault: Fault) returns (batch: Option<seq<Event>>)
      requires Valid() && builder.Valid() && builder !in book.Repr() && builder.changes == [] && builder.command == Versioned(market, c)
      requires Accepts(market, c) && c.kind == AmendCommand
      modifies book.Repr(), logs, builder
      ensures Valid() && fresh(book.Repr() - old(book.Repr()))
      ensures (book.View(), logs.rows, batch)
           == Outcome(PlanCommand(market, old(book.View()), c), old(book.View()), old(logs.rows), fault)
    {
      hide OrderBook.Valid, SoundBook, Absent, Outcome, PlanMatch, ApplyEdit, EditOf, Versioned, Stamped, AllValid;
      ghost var before := book.View();
      EditSound(before, c.amend.value, c.recordedAt);
      WithoutMatch(PlanCommand(market, before, c), before, logs.rows, fault);
      var edit := book.EditOrderAt(c.amend.value, c.recordedAt);
      if edit.None? {
        batch := builder.Finish();
      } else {
        builder.Add(AmendedChange(edit.value.before, edit.value.after));
        assert builder.changes == [AmendedChange(edit.value.before, edit.value.after)];
        if !edit.value.requiresRematch {
          batch := builder.Finish();
        } else {
          RematchOutcome(market, before, c, logs.rows, fault);
          batch := Settle(c, edit.value.after, false, builder, fault);
        }
      }
    }

    method ApplyCancel(c: Command, builder: OrderEventBuilder, ghost fault: Fault) returns (batch: Option<seq<Event>>)
      requires Valid() && builder.Valid() && builder !in book.Repr() && builder.changes == [] && builder.command == Versioned(market, c)
      requires Accepts(market, c) && c.kind == CancelCommand
      modifies book.Repr(), builder
      ensures Valid() && fresh(book.Repr() - old(book.Repr()))
      ensures (book.View(), logs.rows, batch)
           == Outcome(PlanCommand(market, old(book.View()), c), old(book.View()), old(logs.rows), fault)
    {
      hide OrderBook.Valid, SoundBook, Absent, Outcome, PlanMatch, Versioned, Stamped, AllValid, Withdraw, Lookup;
      ghost var before := book.View();
      LookupSound(before, c.cancel.value.orderID);
      CancelSound(before, c.cancel.value.orderID);
      WithoutMatch(PlanCommand(market, before, c), before, logs.rows, fault);
      var removed := book.RemoveOrder(c.cancel.value.orderID);
      if removed.Some? {
        builder.Add(CanceledChange(removed.value));
        assert builder.changes == [CanceledChange(removed.value)];
      }
      batch := builder.Finish();
    }

    /** Applies one journalled command to the book and saves its executions; None if it fails. */
    method ApplyCommand(c: Command, fault: Fault) returns (batch: Option<seq<Event>>)
      requires Valid() && (CreatedID(c).Some? ==> Absent(book.View(), CreatedID(c).value))
      modifies book.Repr(), logs
      ensures Valid() && fresh(book.Repr() - old(book.Repr()))
      ensures (book.View(), logs.rows, batch)
           == Outcome(PlanCommand(market, old(book.View()), c), old(book.View()), old(logs.rows), fault)
    {
      hide OrderBook.Valid, SoundBook, Absent, PlanMatch, SaveLogs, ApplyEdit, ValidCreate, ValidAmend, ValidCancel;
      if !Validate(c) {
        return None;
      }
      var command := Versioned(market, c);
      if command.marketConfigVersion != market.precision.configVersion || command.recordedAt == ZeroTime {
        return None;
      }
      hide PlanCommand, Outcome, Versioned;
      var builder := new OrderEventBuilder(command);
      match c.kind
      case CreateCommand =>
        CreatedIncoming(c);
        CreateOutcome(market, book.View(), c);
        batch := Settle(c, CreateOrderAt(c.create.value, c.recordedAt), true, builder, fault);
      case AmendCommand =>
        batch := ApplyAmend(c, builder, fault);
      case CancelCommand =>
        batch := ApplyCancel(c, builder, fault);
    }

    /** The state of the protocol this worker is in. */
    ghost function Abstract(): Sys
      reads book, book.bids, book.asks, journal, logs, events, state
    {
      Sys(journal.State(), Tables(logs.rows, events.rows), book.View(), state.cause == None)
    }

    /** Applies one journalled command and saves its events: one step of the journal. */
    method ProcessCommand(c: Command, f: SaveFaults) returns (failure: Option<Failure>)
      requires Valid() && (CreatedID(c).Some? ==> Absent(book.View(), CreatedID(c).value))
      modifies book.Repr(), logs, events
      ensures Valid() && fresh(book.Repr() - old(book.Repr()))
      ensures Processed(book.View(), Tables(logs.rows, events.rows), failure == None)
           == Process(market, old(book.View()), old(Tables(logs.rows, events.rows)), c, f)
    {
      hide OrderBook.Valid, SoundBook, Absent, Outcome, PlanCommand, SaveEvents;
      var batch := ApplyCommand(c, f.logs);
      if batch.None? {
        return Some(CommandFailed);
      }
      var recorded := SaveOrderEvents(events, batch.value, f.events);
      failure := if recorded then None else Some(EventsFailed);
    }

    /** One command event of the worker's loop, from the halt check to the acknowledgement. */
    method HandleEvent(ev: Request, now: int, f: Faults) returns (ack: Ack)
      requires Valid()
      requires BringsFresh(market, Abstract(), ev, now, f)
      modifies book.Repr(), journal, logs, events, state
      ensures Valid() && fresh(book.Repr() - old(book.Repr()))
      ensures (Abstract(), ack) == Handle(market, old(Abstract()), ev, now, f)
      ensures old(state.cause).Some? ==> state.cause == old(state.cause)
    {
      hide OrderBook.Valid, SoundBook, Absent, Process, AppendTo, CommandFromEvent, FindCommand, CreatedID;
      if state.cause != None {
        return Halted;
      }
      if ev.ticker != "" && ev.ticker != market.ticker {
        return Misrouted;
      }
      var command := CommandFromEvent(market, ev);
      if command.None? {
        return Success;
      }
      var appended := journal.Append(command.value, now, f.append, f.readable);
      if appended.Err? {
        state.Halt(Some(JournalFailed(appended.error)));
        return Halted;
      }
      if !appended.value.inserted {
        return Success;
      }
      var failure := ProcessCommand(appended.value.command, f.saves);
      if failure.Some? {
        state.Halt(failure);
        return Halted;
      }
      return Success;
    }

    /** Rebuilds an empty book from the journal rows of this ticker, saving every row again. */
    method Replay(commands: seq<Command>, faults: nat -> SaveFaults) returns (ok: bool)
      requires Valid() && book.View() == EMPTY_BOOK && FreshIDs(commands)
      modifies book.Repr(), logs, events, state
      ensures Valid() && fresh(book.Repr() - old(book.Repr()))
      ensures Processed(book.View(), Tables(logs.rows, events.rows), ok)
           == ReplayFrom(market, EMPTY_BOOK, old(Tables(logs.rows, events.rows)), commands, 0, 0, faults)
      ensures ok ==> state.cause == old(state.cause) && Replayed(market, commands).ok
      ensures !ok ==> state.cause.Some? && (old(state.cause).Some? ==> state.cause == old(state.cause))
    {
      hide OrderBook.Valid, SoundBook, Absent, Process, Replayed, CreatedID, FreshIDs;
      var lastSequence, i := 0, 0;
      ReplayedNothing(market, commands);
      while i < |commands|
        invariant 0 <= i <= |commands| && Valid() && fresh(book.Repr() - old(book.Repr()))
        invariant state.cause == old(state.cause)
        invariant Replayed(market, commands[..i]).ok && book.View() == Replayed(market, commands[..i]).book
        invariant ReplayFrom(market, EMPTY_BOOK, old(Tables(logs.rows, events.rows)), commands, 0, 0, faults)
               == ReplayFrom(market, book.View(), Tables(logs.rows, events.rows), commands, i, lastSequence, faults)
      {
        if commands[i].ticker != market.ticker || commands[i].sequence <= lastSequence {
          state.Halt(Some(InvalidReplaySequence));
          return false;
        }
        if CreatedID(commands[i]).Some? {
          FreshIsAbsent(market, commands, i);
        }
        ProcessAdvances(market, commands, i, Tables(logs.rows, events.rows), faults(i));
        var failure := ProcessCommand(commands[i], faults(i));
        if failure.Some? {
          state.Halt(failure);
          return false;
        }
        lastSequence := commands[i].sequence;
        i := i + 1;
      }
      assert commands[..i] == commands;
      return true;
    }
  }

  /** Process start: a new worker over the durable stores, its book rebuilt from the listed journal. */
  method StartWorker(market: Market, journal: Store, logs: Table<ExecutionID, MatchLog>, events: Table<EventID, Event>,
                     faults: nat -> SaveFaults) returns (worker: BookWorker)
    requires JournalOK(journal.State()) && FreshIDs(TickerRows(journal.rows, market.ticker))
    modifies logs, events
    ensures worker.Valid() && fresh(worker.book.Repr())
    ensures forall book, live :: worker.Abstract() ==
              Restart(market, Sys(journal.State(), old(Tables(logs.rows, events.rows)), book, live), faults)
  {
    hide OrderBook.Valid, SoundBook, JournalOK, FreshIDs, Replayed, ReplayFrom, TickerRows, Replayable;
    var commands := journal.ListTicker(market.ticker);
    var state := new EngineState();
    worker := new BookWorker(market, journal, logs, events, state);
    var ok := worker.Replay(commands, faults);
  }
}
