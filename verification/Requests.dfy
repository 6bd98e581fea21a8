/**
 * What happens to a request, in terms of the request alone: which command it is journalled as, when it is
 * refused, when it succeeds, and what a success has done to the book.
 */
module Requests {
  import opened Models
  import opened Numeric
  import opened Texts
  import opened FlatBook
  import opened Matching
  import opened MatchingLaws
  import opened Journal
  import opened OrderEvents
  import opened Stores
  import opened Execution
  import opened BookLaws
  import opened Lifecycle
  import opened JournalStores
  import opened Runs
  import opened Conservation
  import opened Guards
  import opened RowIdentity
  import opened Protocol
  import opened Recovery

  // ----- the request -----

  /** The event carries the payload of its type, and the payload names the worker's ticker. */
  predicate NamesTicker(m: Market, ev: Request) {
    match ev.kind
    case NewOrder => ev.newOrder.Some? && ev.newOrder.value.ticker == m.ticker
    case EditOrder => ev.editReq.Some? && ev.editReq.value.ticker == m.ticker
    case CancelOrder => ev.cancelReq.Some? && ev.cancelReq.value.ticker == m.ticker
  }

  function RequestID(m: Market, ev: Request): string
    requires NamesTicker(m, ev)
  {
    match ev.kind
    case NewOrder => ev.newOrder.value.commandID
    case EditOrder => ev.editReq.value.commandID
    case CancelOrder => ev.cancelReq.value.commandID
  }

  /** The row holds the request: its id, ticker and type, its payload and no other, and the market's version. */
  predicate HoldsRequest(m: Market, row: Command, ev: Request)
    requires NamesTicker(m, ev)
  {
    && row.commandID == RequestID(m, ev) && row.ticker == m.ticker
    && row.marketConfigVersion == (if m.precision.configVersion != 0 then m.precision.configVersion else 1)
    && match ev.kind
       case NewOrder => row.kind == CreateCommand && row.create == ev.newOrder && row.amend == None && row.cancel == None
       case EditOrder => row.kind == AmendCommand && row.create == None && row.amend == ev.editReq && row.cancel == None
       case CancelOrder => row.kind == CancelCommand && row.create == None && row.amend == None && row.cancel == ev.cancelReq
  }

  /** What the journal asks of a request. */
  predicate WellFormedRequest(m: Market, ev: Request)
    requires NamesTicker(m, ev)
  {
    && RequestID(m, ev) != "" && m.ticker != "" && m.precision.configVersion >= 0
    && match ev.kind
       case NewOrder =>
         var req := ev.newOrder.value;
         !IsBlank(req.userID) && req.amount > 0 && (req.orderType == Limit ==> req.price > 0)
         && (req.orderType == OrderType.Market ==> req.price == 0)
       case EditOrder =>
         var req := ev.editReq.value;
         !(req.orderID.Raw? && IsBlank(req.orderID.text)) && req.price > 0 && (req.amount != None ==> req.amount.value > 0)
       case CancelOrder =>
         !(ev.cancelReq.value.orderID.Raw? && IsBlank(ev.cancelReq.value.orderID.text))
  }

  /** An event asks for a command exactly when its payload names the ticker, and the command is its payload. */
  lemma CommandIs(m: Market, ev: Request)
    ensures CommandFromEvent(m, ev).Some? <==> NamesTicker(m, ev)
    ensures NamesTicker(m, ev) ==>
              var c := CommandFromEvent(m, ev).value;
              && c.commandID == RequestID(m, ev) && c.ticker == m.ticker && (Validate(c) <==> WellFormedRequest(m, ev))
              && (forall row :: IsRowOf(row, c) <==> HoldsRequest(m, row, ev))
  {
    hide IsBlank;
  }

  /** The worker takes requests, and this one is for it. */
  predicate Addressed(m: Market, s: Sys, ev: Request) {
    s.live && (ev.ticker == "" || ev.ticker == m.ticker) && NamesTicker(m, ev)
  }

  // ----- success -----

  /**
   * A success means that the ticker's journal holds the request, and that book and rows are exactly those
   * of that journal; whatever failed on the way, nothing else is acknowledged as a success.
   */
  lemma SuccessIsJournalled(m: Market, s: Sys, ev: Request, now: int, f: Faults)
    requires Inv(m, s) && Addressed(m, s, ev) && DistinctTakers(JournalOf(m, Handle(m, s, ev, now, f).0))
    ensures var (next, ack) := Handle(m, s, ev, now, f);
            ack == Success ==> (exists row :: row in JournalOf(m, next) && HoldsRequest(m, row, ev)) && Recovered(m, next)
  {
    hide Inv, DistinctTakers, JournalOf, Recovered, Handle, HoldsRequest, NamesTicker, IsRowOf, CommandFromEvent;
    CommandIs(m, ev);
    Acknowledged(m, s, ev, now, f);
  }

  const FAULTLESS := Faults(NoFault, true, NO_FAULTS)

  /**
   * A request under a new id, when nothing fails: a malformed one is refused and leaves no trace; a
   * well-formed one is journalled as exactly one new row that holds it, and succeeds exactly when that
   * row applies to the book, which then is what the command makes of it.
   */
  lemma FreshRequest(m: Market, s: Sys, ev: Request, now: int)
    requires Inv(m, s) && Addressed(m, s, ev) && DistinctTakers(JournalOf(m, Handle(m, s, ev, now, FAULTLESS).0))
    requires FindCommand(s.journal.rows, RequestID(m, ev)) == None
    ensures var (next, ack) := Handle(m, s, ev, now, FAULTLESS);
            && (!WellFormedRequest(m, ev) ==> ack == Halted && next.journal.rows == s.journal.rows && next.tables == s.tables && next.book == s.book)
            && (WellFormedRequest(m, ev) ==>
                  && |next.journal.rows| == |s.journal.rows| + 1 && s.journal.rows <= next.journal.rows
                  && var row := next.journal.rows[|s.journal.rows|];
                     && HoldsRequest(m, row, ev) && row.sequence == Last(s.journal, m.ticker) + 1 && row.recordedAt == At(now)
                     && (ack == Success <==> Applies(m, s.book, row))
                     && (ack == Success ==> PlanCommand(m, s.book, row).Planned? && next.book == PlanCommand(m, s.book, row).final))
  {
    hide Inv, DistinctTakers, JournalOf, Recovered, NamesTicker, IsRowOf, CommandFromEvent, AppendTo, Process, Applies, PlanCommand, FindCommand, WellFormedRequest, Validate, RequestID, Handle;
    CommandIs(m, ev);
    var c := CommandFromEvent(m, ev).value;
    InvParts(m, s);
    AppendFresh(s.journal, c, now, NoFault, true);
    AppendReports(s.journal, c, now, NoFault, true);
    HandledRow(m, s, ev, now);
    if WellFormedRequest(m, ev) {
      var next := Handle(m, s, ev, now, FAULTLESS).0;
      RowSucceedsIff(m, s, c, now, next.journal.rows[|s.journal.rows|], next);
    }
  }

  lemma InvParts(m: Market, s: Sys)
    requires Inv(m, s)
    ensures JournalOK(s.journal) && NothingElse(m, s.tables, JournalOf(m, s)) && (s.live ==> Recovered(m, s))
  {
  }

  /** The inserted row goes through, without a fault, exactly when it applies. */
  lemma RowSucceedsIff(m: Market, s: Sys, c: Command, now: int, row: Command, next: Sys)
    requires Inv(m, s) && s.live && c.ticker == m.ticker
    requires AppendTo(s.journal, c, now, NoFault, true) == (next.journal, Ok(AppendResult(row, true)))
    requires DistinctTakers(JournalOf(m, next))
    requires var p := Process(m, s.book, s.tables, row, NO_FAULTS);
             next.book == p.book && next.tables == p.tables && next.live == p.ok
    ensures next.live <==> Applies(m, s.book, row)
    ensures next.live ==> PlanCommand(m, s.book, row).Planned? && next.book == PlanCommand(m, s.book, row).final
  {
    hide Inv, DistinctTakers, Recovered, AppendTo, Process, Applies, PlanCommand, Replayed, TickerRows, JournalOK, NothingElse;
    InvParts(m, s);
    AppendGrows(m, s.journal, c, now, NoFault, true);
    JournalIdentified(m, next);
    ExtendRecovered(m, s, row, NO_FAULTS, next);
    RecoveredBook(m, s);
    RunOfMore(m, JournalOf(m, s), row);
    ProcessedBook(m, s.book, s.tables, row, NO_FAULTS);
  }

  lemma RunOfMore(m: Market, cmds: seq<Command>, row: Command)
    requires Replayed(m, cmds).ok
    ensures Replayed(m, cmds + [row]).ok <==> Applies(m, Replayed(m, cmds).book, row)
  {
    hide PlanCommand, Applies, Advance;
    assert (cmds + [row])[..|cmds|] == cmds;
    AdvanceOkIff(m, Replayed(m, cmds), row);
  }

  lemma ProcessedBook(m: Market, b: Book, t: Tables, c: Command, f: SaveFaults)
    ensures Process(m, b, t, c, f).ok ==> PlanCommand(m, b, c).Planned? && Process(m, b, t, c, f).book == PlanCommand(m, b, c).final
  {
    hide PlanCommand, SaveLogs, SaveEvents, AllValid;
  }

  /** What Handle does with a request it journals. */
  lemma HandledRow(m: Market, s: Sys, ev: Request, now: int)
    requires Addressed(m, s, ev) && CommandFromEvent(m, ev).Some?
    ensures var (next, ack) := Handle(m, s, ev, now, FAULTLESS);
            var (journal, appended) := AppendTo(s.journal, CommandFromEvent(m, ev).value, now, NoFault, true);
            && next.journal == journal
            && (appended.Err? ==> next == Sys(journal, s.tables, s.book, false) && ack == Halted)
            && (appended.Ok? && appended.value.inserted ==>
                  var p := Process(m, s.book, s.tables, appended.value.command, NO_FAULTS);
                  next == Sys(journal, p.tables, p.book, p.ok) && (ack == Success <==> p.ok))
  {
    hide AppendTo, Process;
  }

  /** A request under an id the journal knows: never applied again, and a success exactly if the row holds it. */
  lemma SeenRequest(m: Market, s: Sys, ev: Request, now: int, f: Faults)
    requires JournalOK(s.journal) && NamesTicker(m, ev) && (ev.ticker == "" || ev.ticker == m.ticker)
    requires FindCommand(s.journal.rows, RequestID(m, ev)).Some?
    ensures var (next, ack) := Handle(m, s, ev, now, f);
            && next.journal.rows == s.journal.rows && next.tables == s.tables && next.book == s.book
            && (ack == Success <==> s.live && f.append == NoFault && f.readable
                                    && HoldsRequest(m, FindCommand(s.journal.rows, RequestID(m, ev)).value, ev))
  {
    hide JournalOK, NamesTicker, HoldsRequest, IsRowOf, CommandFromEvent, FindCommand, Handle, WellFormedRequest, RequestID;
    CommandIs(m, ev);
    SeenTakesNoEffect(m, s, ev, now, f);
  }

  /**
   * When the row of a well-formed request applies: in a market with a configuration version, exactly when
   * its trades can be quoted and stored and its events announced.
   */
  lemma RowAppliesIff(m: Market, b: Book, row: Command, ev: Request)
    requires NamesTicker(m, ev) && WellFormedRequest(m, ev) && HoldsRequest(m, row, ev) && row.recordedAt.At?
    requires SoundBook(b) && (CreatedID(row).Some? ==> Absent(b, CreatedID(row).value))
    ensures Applies(m, b, row) <==>
              && m.precision.configVersion != 0 && AllQuotable(m.precision, TradesOf(b, row))
              && AllStorable(m.precision, TradesOf(b, row)) && Announceable(b, row)
  {
    hide SoundBook, Absent, Applies, AllQuotable, AllStorable, TradesOf, Announceable;
    AcceptedIff(m, row, ev);
    AppliesIff(m, b, row);
  }

  lemma AcceptedIff(m: Market, row: Command, ev: Request)
    requires NamesTicker(m, ev) && WellFormedRequest(m, ev) && HoldsRequest(m, row, ev) && row.recordedAt.At?
    ensures Accepts(m, row) <==> m.precision.configVersion != 0
  {
    hide IsBlank;
  }

  // ----- what a success has done -----

  /** After a successful cancel under a new id the named order is off the book, and every other order is as it was. */
  lemma SuccessfulCancel(m: Market, s: Sys, ev: Request, now: int)
    requires Inv(m, s) && Addressed(m, s, ev) && DistinctTakers(JournalOf(m, Handle(m, s, ev, now, FAULTLESS).0))
    requires FreshIDs(JournalOf(m, s)) && ev.kind == CancelOrder && FindCommand(s.journal.rows, RequestID(m, ev)) == None
    ensures var (next, ack) := Handle(m, s, ev, now, FAULTLESS);
            var id := ev.cancelReq.value.orderID;
            ack == Success ==>
              && Absent(next.book, id)
              && forall o: Order :: o.id != id ==>
                   (o in next.book.bids <==> o in s.book.bids) && (o in next.book.asks <==> o in s.book.asks)
  {
    hide Inv, DistinctTakers, FreshIDs, JournalOf, Recovered, Handle, PlanCommand, Applies, FindCommand, Absent, Replayed, SoundBook, Mirrors, Project;
    FreshRequest(m, s, ev, now);
    LiveBookIsSound(m, s);
    var (next, ack) := Handle(m, s, ev, now, FAULTLESS);
    if ack == Success {
      CancelTakesEffect(m, s.book, next.journal.rows[|s.journal.rows|]);
    }
  }

  /**
   * If the executions of a create cannot be saved its residual does not rest: the order is nowhere on the
   * book the failed command leaves.
   */
  lemma UnsavedNeverRests(m: Market, b: Book, t: Tables, c: Command, f: SaveFaults)
    requires SoundBook(b) && c.kind == CreateCommand && PlanCommand(m, b, c).Planned? && Absent(b, CreatedID(c).value)
    requires !SaveLogs(t.logRows, PlanCommand(m, b, c).logs, f.logs).1
    ensures var p := Process(m, b, t, c, f);
            !p.ok && Absent(p.book, CreatedID(c).value) && p.tables.eventRows == t.eventRows
  {
    hide SoundBook, Absent, SaveLogs, SaveEvents, AllValid, Greedy, Rest, Stamped;
    CreatedIncoming(c);
    MatchedBook(m, b, CreateOrderAt(c.create.value, c.recordedAt));
  }
}
