/**
 * Where everything comes from: each order on a book, each party of an execution and each order an event
 * speaks of is one that a create command of the run made, with that command's user, side and type.
 */
module Provenance {
  import opened Models
  import opened Numeric
  import opened FlatBook
  import opened Levels
  import opened Matching
  import opened MatchingLaws
  import opened Journal
  import opened OrderEvents
  import opened Execution
  import opened BookLaws
  import opened Stores
  import opened Lifecycle
  import opened Runs
  import opened Conservation

  /** What never changes about an order. */
  datatype Origin = Origin(id: OrderID, ticker: string, userID: string, orderType: OrderType, side: Side, nonce: nat)

  function OriginOf(o: Order): Origin {
    Origin(o.id, o.ticker, o.userID, o.orderType, o.side, o.nonce)
  }

  /** What a create request makes: its identity is the tuple of all that tells it from other requests. */
  function Requested(req: CreateOrderRequest): Origin {
    Origin(Hash(req.ticker, req.userID, req.orderType, req.side, req.price, req.nonce),
           req.ticker, req.userID, req.orderType, req.side, req.nonce)
  }

  function Origins(c: Command): set<Origin> {
    if c.kind == CreateCommand && c.create.Some? then {Requested(c.create.value)} else {}
  }

  function AllOrigins(cmds: seq<Command>): set<Origin> {
    if cmds == [] then {} else AllOrigins(cmds[..|cmds| - 1]) + Origins(cmds[|cmds| - 1])
  }

  /** The created order is the requested one, with its price, its amount and the recorded time. */
  lemma CreatedIs(req: CreateOrderRequest, recordedAt: Time)
    ensures var o := CreateOrderAt(req, recordedAt);
            OriginOf(o) == Requested(req) && o.price == req.price && o.amount == req.amount && o.timestamp == recordedAt
  {
  }

  ghost predicate Known(s: seq<Order>, known: set<Origin>) {
    forall o :: o in s ==> OriginOf(o) in known
  }

  ghost predicate KnownBook(b: Book, known: set<Origin>) {
    Known(b.bids, known) && Known(b.asks, known)
  }

  /** Both parties of an execution are known, by identity, user and side, and stand on opposite sides. */
  ghost predicate KnownLog(log: MatchLog, known: set<Origin>) {
    exists maker, taker :: maker in known && taker in known && Parties(log, maker, taker)
  }

  predicate Parties(log: MatchLog, maker: Origin, taker: Origin) {
    && log.makerOrderID == maker.id && log.makerUserID == maker.userID && log.makerSide == maker.side
    && log.takerOrderID == taker.id && log.takerUserID == taker.userID && log.takerSide == taker.side
    && log.executionID.takerOrderID == taker.id && maker.side != taker.side
  }

  ghost predicate KnownLogs(logs: seq<MatchLog>, known: set<Origin>) {
    forall log :: log in logs ==> KnownLog(log, known)
  }

  ghost predicate KnownChanges(changes: seq<Change>, known: set<Origin>) {
    forall ch :: ch in changes ==> OriginOf(ch.order) in known
  }

  // ----- one match -----

  lemma KnownInsert(side: Side, s: seq<Order>, o: Order, known: set<Origin>)
    requires Known(s, known) && OriginOf(o) in known
    ensures Known(Insert(side, s, o), known)
  {
    InsertElems(side, s, o);
  }

  lemma KnownRemove(s: seq<Order>, id: OrderID, known: set<Origin>)
    requires Known(s, known)
    ensures Known(Remove(s, id), known)
  {
    if s != [] {
      KnownRemove(s[1..], id, known);
    }
  }

  lemma KnownReplace(s: seq<Order>, o: Order, known: set<Origin>)
    requires Known(s, known) && OriginOf(o) in known
    ensures Known(Replace(s, o), known)
  {
    if s != [] {
      KnownReplace(s[1..], o, known);
    }
  }

  lemma KnownLeftover(s: seq<Order>, k: nat, left: int, known: set<Origin>)
    requires k <= |s| && Known(s, known)
    ensures Known(Leftover(s, k, left), known)
  {
    if k > 0 {
      assert s[k - 1] in s;
    }
  }

  lemma {:induction false} KnownMakers(fills: seq<MakerFill>, known: set<Origin>)
    requires forall i :: 0 <= i < |fills| ==> OriginOf(fills[i].order) in known
    ensures KnownChanges(MakerChanges(fills), known)
    decreases |fills|
  {
    if fills != [] {
      KnownMakers(fills[1..], known);
      assert MakerChange(fills[0]).order == fills[0].order;
    }
  }

  lemma KnownConcat(a: seq<Change>, b: seq<Change>, known: set<Origin>)
    requires KnownChanges(a, known) && KnownChanges(b, known)
    ensures KnownChanges(a + b, known)
  {
  }

  lemma KnownTaker(order: Order, remaining: int, known: set<Origin>)
    requires OriginOf(order) in known
    ensures KnownChanges(TakerChanges(order, order.amount - remaining, remaining), known)
    ensures KnownChanges(RemainderChanges(order, remaining), known) && KnownChanges([], known)
  {
  }

  /** The executions, the makers and the side left over by a match are known if what went in was. */
  lemma MatchKnown(p: Precision, ticker: string, s: seq<Order>, taker: Order, known: set<Origin>)
    requires Known(s, known) && OriginOf(taker) in known && WellFormed(taker.side.Opposite(), s)
    ensures var g := Greedy(p, ticker, s, taker, 0);
            Known(g.opposite, known) && KnownLogs(g.logs, known) && KnownChanges(MakerChanges(g.fills), known)
  {
    hide Greedy, Leftover, KnownChanges;
    var g := Greedy(p, ticker, s, taker, 0);
    Shape(p, ticker, s, taker, 0);
    MakersInOrder(p, ticker, s, taker, 0);
    LogsNumbered(p, ticker, s, taker, 0);
    KnownLeftover(s, |g.fills|, LastLeft(g.fills), known);
    forall i | 0 <= i < |g.fills| ensures OriginOf(g.fills[i].order) in known {
      assert s[i] in s;
    }
    KnownMakers(g.fills, known);
    forall log | log in g.logs ensures KnownLog(log, known) {
      var i :| 0 <= i < |g.logs| && g.logs[i] == log;
      assert s[i] in s && Records(p, log, s[i], taker);
      assert Parties(log, OriginOf(s[i]), OriginOf(taker));
    }
  }

  lemma SideIsWellFormed(b: Book, side: Side)
    requires SoundBook(b)
    ensures WellFormed(side, b.On(side))
  {
  }

  ghost predicate KnownPlan(plan: Plan, known: set<Origin>) {
    match plan
    case Refused => true
    case Broken(book) => KnownBook(book, known)
    case Planned(matched, logs, final, _, changes) =>
      KnownBook(matched, known) && KnownBook(final, known) && KnownLogs(logs, known) && KnownChanges(changes, known)
  }

  lemma PlanMatchKnown(m: Market, b: Book, c: Command, order: Order, isNew: bool, first: seq<Change>, known: set<Origin>)
    requires SoundBook(b) && KnownBook(b, known) && OriginOf(order) in known && KnownChanges(first, known)
    requires Incoming(order) && Absent(b, order.id)
    ensures KnownPlan(PlanMatch(m, b, c, order, isNew, first), known)
  {
    hide Greedy, SoundBook, Known, KnownLogs, KnownChanges, TakerChanges, RemainderChanges, Insert, Absent, WellFormed;
    var side := order.side.Opposite();
    var g := Greedy(m.precision, m.ticker, b.On(side), order, 0);
    SideIsWellFormed(b, side);
    MatchedBook(m, b, order);
    MatchKnown(m.precision, m.ticker, b.On(side), order, known);
    KnownTaker(order, g.taker.amount, known);
    KnownInsert(order.side, b.On(order.side), g.taker, known);
    var a, t := MakerChanges(g.fills), TakerChanges(order, order.amount - g.taker.amount, g.taker.amount);
    KnownConcat(first, a, known);
    KnownConcat(first + a, t, known);
    KnownConcat(first + a + t, if isNew then RemainderChanges(order, g.taker.amount) else [], known);
  }

  // ----- every command -----

  lemma LookupKnown(b: Book, id: OrderID, known: set<Origin>)
    requires KnownBook(b, known)
    ensures Lookup(b, id).Some? ==> OriginOf(Lookup(b, id).value) in known
  {
    FindKnown(b.bids, id, known);
    FindKnown(b.asks, id, known);
  }

  lemma FindKnown(s: seq<Order>, id: OrderID, known: set<Origin>)
    requires Known(s, known)
    ensures Find(s, id).Some? ==> OriginOf(Find(s, id).value) in known
  {
    if s != [] && s[0].id != id {
      FindKnown(s[1..], id, known);
    }
  }

  lemma EditKnown(b: Book, req: EditOrderRequest, recordedAt: Time, known: set<Origin>)
    requires KnownBook(b, known) && EditOf(b, req, recordedAt).Some?
    ensures var e := EditOf(b, req, recordedAt).value;
            KnownBook(ApplyEdit(b, e), known) && OriginOf(e.after) in known && KnownChanges([AmendedChange(e.before, e.after)], known)
  {
    hide Known, Insert, Remove, Replace, Lookup;
    var e := EditOf(b, req, recordedAt).value;
    LookupKnown(b, req.orderID, known);
    var s := b.On(e.before.side);
    KnownRemove(s, e.before.id, known);
    KnownInsert(e.after.side, Remove(s, e.before.id), e.after, known);
    KnownReplace(s, e.after, known);
  }

  lemma PlanKnown(m: Market, b: Book, c: Command, known: set<Origin>)
    requires SoundBook(b) && (CreatedID(c).Some? ==> Absent(b, CreatedID(c).value))
    requires KnownBook(b, known) && Origins(c) <= known
    ensures KnownPlan(PlanCommand(m, b, c), known)
  {
    hide SoundBook, PlanMatch, ApplyEdit, Absent, Known, KnownLogs, Lookup, EditOf, Remove;
    if Accepts(m, c) {
      match c.kind
      case CreateCommand =>
        CreatedIncoming(c);
        CreatedIs(c.create.value, c.recordedAt);
        PlanMatchKnown(m, b, c, CreateOrderAt(c.create.value, c.recordedAt), true, [], known);
      case AmendCommand =>
        NoLogs(known);
        var edit := EditOf(b, c.amend.value, c.recordedAt);
        if edit.Some? {
          var e := edit.value;
          EditSound(b, c.amend.value, c.recordedAt);
          EditKnown(b, c.amend.value, c.recordedAt, known);
          if e.requiresRematch {
            PlanMatchKnown(m, ApplyEdit(b, e), c, e.after, false, [AmendedChange(e.before, e.after)], known);
          }
        }
      case CancelCommand =>
        NoLogs(known);
        LookupKnown(b, c.cancel.value.orderID, known);
        var o := Lookup(b, c.cancel.value.orderID);
        if o.Some? {
          KnownRemove(b.On(o.value.side), o.value.id, known);
        }
    }
  }

  lemma NoLogs(known: set<Origin>)
    ensures KnownLogs([], known)
  {
  }

  // ----- whole runs -----

  /** The order an event speaks of is known, by identity, user, side and type. */
  ghost predicate KnownEvent(e: Event, known: set<Origin>) {
    exists o :: o in known && o.id == e.orderID && o.userID == e.userID && o.side == e.side && o.orderType == e.orderType
  }

  ghost predicate KnownEvents(events: seq<Event>, known: set<Origin>) {
    forall e :: e in events ==> KnownEvent(e, known)
  }

  lemma StampedKnown(c: Command, changes: seq<Change>, known: set<Origin>)
    requires KnownChanges(changes, known)
    ensures KnownEvents(Stamped(c, changes), known)
  {
    var events := Stamped(c, changes);
    forall e | e in events ensures KnownEvent(e, known) {
      var i :| 0 <= i < |events| && events[i] == e;
      assert changes[i] in changes;
      assert OriginOf(changes[i].order) in known;
    }
  }

  lemma KnownMore(r: Run, known: set<Origin>, more: set<Origin>)
    requires KnownRun(r, known) && known <= more
    ensures KnownRun(r, more)
  {
    forall log | log in r.logs ensures KnownLog(log, more) {
      assert KnownLog(log, known);
    }
    forall e | e in r.events ensures KnownEvent(e, more) {
      assert KnownEvent(e, known);
    }
  }

  ghost predicate KnownRun(r: Run, known: set<Origin>) {
    KnownBook(r.book, known) && KnownLogs(r.logs, known) && KnownEvents(r.events, known)
  }

  lemma AdvanceKnown(m: Market, r: Run, c: Command, known: set<Origin>)
    requires r.ok && SoundBook(r.book) && (CreatedID(c).Some? ==> Absent(r.book, CreatedID(c).value))
    requires KnownRun(r, known) && Origins(c) <= known
    ensures KnownRun(Advance(m, r, c), known)
  {
    hide SoundBook, PlanCommand, Absent, KnownChanges, KnownLog, KnownEvent, LogRows, EventRows, Stamped;
    PlanKnown(m, r.book, c, known);
    var plan := PlanCommand(m, r.book, c);
    if plan.Planned? {
      StampedKnown(plan.command, plan.changes, known);
    }
  }

  /**
   * After every run, whether or not its last command failed: every order on the book, both parties of every
   * execution and the order of every event are ones that its create commands made, with their users,
   * sides and types.
   */
  lemma {:induction false} EverythingIsCreated(m: Market, cmds: seq<Command>)
    requires FreshIDs(cmds)
    ensures KnownRun(Replayed(m, cmds), AllOrigins(cmds))
    decreases |cmds|
  {
    hide Advance, KnownRun, Origins, FreshIDs, SoundBook, Absent;
    if cmds == [] {
      NothingKnown();
    } else {
      var n := |cmds| - 1;
      var r := Replayed(m, cmds[..n]);
      FreshPrefix(cmds);
      EverythingIsCreated(m, cmds[..n]);
      KnownMore(r, AllOrigins(cmds[..n]), AllOrigins(cmds));
      if r.ok {
        NewIsAbsent(m, cmds[..n], cmds[n]);
        AdvanceKnown(m, r, cmds[n], AllOrigins(cmds));
      } else {
        StoppedStays(m, r, cmds[n]);
      }
    }
  }

  lemma StoppedStays(m: Market, r: Run, c: Command)
    requires !r.ok
    ensures Advance(m, r, c) == r
  {
  }

  lemma NothingKnown()
    ensures KnownRun(START, {})
  {
  }
}
