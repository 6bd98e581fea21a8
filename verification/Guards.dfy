/**
 * Exactly when a command applies, in terms of what can be seen before it: the request, the book and
 * the market's scales. Each guard comes with an input that fails it.
 */
module Guards {
  import opened Models
  import opened Numeric
  import opened Texts
  import opened FlatBook
  import opened Levels
  import opened Matching
  import opened MatchingLaws
  import opened Journal
  import opened OrderEvents
  import opened Stores
  import opened Execution
  import opened BookLaws
  import opened Batches
  import opened Runs

  // ----- the trades a book offers a taker -----

  datatype Trade = Trade(price: int, amount: int)

  /** What a taker that wants left lots trades with the crossing orders, one by one. */
  function Trades(opposite: seq<Order>, taker: Order, left: int): (ts: seq<Trade>)
    ensures |ts| <= |opposite|
  {
    if opposite == [] || left <= 0 || !CanMatchAtPrice(taker, opposite[0].price) then []
    else
      var t := MinQuantity(left, opposite[0].amount);
      [Trade(opposite[0].price, t)] + Trades(opposite[1..], taker, left - t)
  }

  lemma {:induction false} TradesSame(opposite: seq<Order>, taker: Order, other: Order, left: int)
    requires other == taker.(amount := other.amount)
    ensures Trades(opposite, taker, left) == Trades(opposite, other, left)
  {
    if opposite != [] && left > 0 {
      TradesSame(opposite[1..], taker, other, left - MinQuantity(left, opposite[0].amount));
    }
  }

  predicate Quotable(p: Precision, t: Trade) {
    QuoteAmount(p, t.price, t.amount).Ok?
  }

  ghost predicate AllQuotable(p: Precision, ts: seq<Trade>) {
    forall i :: 0 <= i < |ts| ==> Quotable(p, ts[i])
  }

  lemma QuotableCons(p: Precision, t: Trade, ts: seq<Trade>)
    ensures AllQuotable(p, [t] + ts) <==> Quotable(p, t) && AllQuotable(p, ts)
    ensures AllQuotable(p, [])
  {
    assert forall i :: 0 <= i < |ts| ==> ts[i] == ([t] + ts)[i + 1];
    assert ([t] + ts)[0] == t;
  }

  /** The executions of a match are its trades, up to the first one whose quote cannot be expressed. */
  ghost predicate LogsTrades(p: Precision, logs: seq<MatchLog>, ts: seq<Trade>) {
    && |logs| <= |ts|
    && forall i :: 0 <= i < |logs| ==>
         logs[i].price == ts[i].price && logs[i].amount == ts[i].amount
         && QuoteAmount(p, ts[i].price, ts[i].amount) == Ok(logs[i].quoteAmount)
  }

  lemma LogsTradesCons(p: Precision, log: MatchLog, logs: seq<MatchLog>, ts: seq<Trade>)
    requires LogsTrades(p, logs, ts) && QuoteAmount(p, log.price, log.amount) == Ok(log.quoteAmount)
    ensures LogsTrades(p, [log] + logs, [Trade(log.price, log.amount)] + ts)
  {
  }

  lemma {:induction false} GreedyTrades(p: Precision, ticker: string, opposite: seq<Order>, taker: Order, n: nat)
    requires Positive(opposite)
    ensures var g := Greedy(p, ticker, opposite, taker, n);
            var ts := Trades(opposite, taker, taker.amount);
            && (g.ok <==> AllQuotable(p, ts))
            && LogsTrades(p, g.logs, ts) && (g.ok ==> |g.logs| == |ts|)
    decreases |opposite|
  {
    hide LogsTrades, Quotable, QuoteAmount, AllQuotable;
    var ts := Trades(opposite, taker, taker.amount);
    NoTrades(p, ts);
    if Stops(opposite, taker) {
      QuotableCons(p, Trade(0, 0), []);
    } else {
      var t := MinQuantity(taker.amount, opposite[0].amount);
      var rest := Remaining(opposite, taker);
      var more := Trades(opposite[1..], rest, rest.amount);
      TradesSame(opposite[1..], taker, rest, taker.amount - t);
      QuotableIs(p, ts[0]);
      QuotableCons(p, ts[0], more);
      if Steps(p, opposite, taker) {
        var log := Greedy(p, ticker, opposite, taker, n).logs[0];
        if opposite[0].amount <= t {
          GreedyTrades(p, ticker, opposite[1..], rest, n + 1);
        } else {
          NoTrades(p, more);
          QuotableCons(p, ts[0], []);
        }
        LogsTradesCons(p, log, Greedy(p, ticker, Eaten(opposite, t), rest, n + 1).logs, more);
      }
    }
  }

  lemma NoTrades(p: Precision, ts: seq<Trade>)
    ensures LogsTrades(p, [], ts)
  {
  }

  lemma QuotableIs(p: Precision, t: Trade)
    ensures Quotable(p, t) == QuoteAmount(p, t.price, t.amount).Ok?
  {
  }

  // ----- which executions can be stored -----

  /** The quote rounds down to zero in the market and overflows when recomputed at the default scales. */
  predicate Overflows(p: Precision, t: Trade) {
    QuoteAmount(p, t.price, t.amount) == Ok(0) && QuoteAmount(DEFAULT_PRECISION, t.price, t.amount).Err?
  }

  ghost predicate AllStorable(p: Precision, ts: seq<Trade>) {
    forall i :: 0 <= i < |ts| ==> !Overflows(p, ts[i])
  }

  ghost predicate ValidLogs(logs: seq<MatchLog>) {
    forall i :: 0 <= i < |logs| ==> ValidMatchLog(logs[i])
  }

  lemma ValidLogsCons(log: MatchLog, logs: seq<MatchLog>)
    requires ValidMatchLog(log) && ValidLogs(logs)
    ensures ValidLogs([log] + logs)
  {
  }

  lemma NotEmpty(s: string)
    ensures !IsBlank(s) ==> s != ""
  {
  }

  lemma QuoteNotNegative(p: Precision, price: int, amount: int)
    ensures QuoteAmount(p, price, amount).Ok? ==> QuoteAmount(p, price, amount).value >= 0
  {
    if price >= 0 && amount >= 0 {
      assert price * amount >= 0;
      DivBounds(price * amount * Pow10(p.quoteScale), Divisor(p));
    }
  }

  /** One execution between sound orders is a valid log. */
  lemma LogValid(p: Precision, ticker: string, taker: Order, maker: Order, t: int, n: nat)
    requires ticker != "" && taker.timestamp != ZeroTime && !IsBlank(taker.userID) && !IsBlankID(taker.id)
    requires SoundLimit(maker) && t > 0
    ensures var log := NewMatchLog(p, ticker, taker, maker, maker.price, t, n);
            log.Ok? ==> ValidMatchLog(log.value)
  {
    QuoteNotNegative(p, maker.price, t);
    NotEmpty(taker.userID);
    NotEmpty(maker.userID);
    NotEmpty(if taker.id.Raw? then taker.id.text else "");
    NotEmpty(if maker.id.Raw? then maker.id.text else "");
    hide IsBlank, QuoteAmount;
  }

  lemma {:induction false} MatchLogsValid(p: Precision, ticker: string, opposite: seq<Order>, taker: Order, n: nat)
    requires ticker != "" && taker.timestamp != ZeroTime && !IsBlank(taker.userID) && !IsBlankID(taker.id)
    requires SoundSide(opposite) && Positive(opposite)
    ensures ValidLogs(Greedy(p, ticker, opposite, taker, n).logs)
    decreases |opposite|, if taker.amount > 0 then taker.amount else 0
  {
    hide Greedy, ValidLogs, ValidMatchLog, NewMatchLog, IsBlank, IsBlankID, SoundLimit;
    NoneInvalid();
    StepUnfolds(p, ticker, opposite, taker, n);
    if Steps(p, opposite, taker) {
      var t := Traded(opposite, taker);
      var g := Greedy(p, ticker, opposite, taker, n);
      EatenSound(opposite, t);
      MatchLogsValid(p, ticker, Eaten(opposite, t), Remaining(opposite, taker), n + 1);
      LogValid(p, ticker, taker, opposite[0], t, n);
      ValidLogsCons(g.logs[0], g.logs[1..]);
      assert g.logs == [g.logs[0]] + g.logs[1..];
    }
  }

  lemma NoneInvalid()
    ensures ValidLogs([])
  {
  }

  /** A batch of valid logs can be stored exactly when none of its trades overflows. */
  lemma {:induction false} LogRowsIff(p: Precision, logs: seq<MatchLog>, ts: seq<Trade>)
    requires ValidLogs(logs) && LogsTrades(p, logs, ts) && |logs| == |ts|
    ensures LogRows(logs).Some? <==> AllStorable(p, ts)
    decreases |logs|
  {
    if logs != [] {
      StoredIff(logs[0]);
      LogRowsIff(p, logs[1..], ts[1..]);
      assert forall i :: 0 <= i < |ts[1..]| ==> ts[1..][i] == ts[i + 1];
      hide LogParams, QuoteAmount, ValidMatchLog;
      if AllStorable(p, ts[1..]) && !Overflows(p, ts[0]) {
        forall i | 0 <= i < |ts| ensures !Overflows(p, ts[i]) {
          if i > 0 { assert !Overflows(p, ts[1..][i - 1]); }
        }
      }
    }
  }

  // ----- the market's guard -----

  lemma {:induction false} Pow10Add(a: nat, b: nat)
    ensures Pow10(a + b) == Pow10(a) * Pow10(b)
  {
    if a > 0 {
      Pow10Add(a - 1, b);
      Associate(10, Pow10(a - 1), Pow10(b));
    }
  }

  lemma Associate(a: int, b: int, c: int)
    ensures a * (b * c) == a * b * c
  {
  }

  lemma {:induction false} Pow10Grows(a: nat, b: nat)
    requires a <= b
    ensures Pow10(a) <= Pow10(b)
  {
    if a < b {
      Pow10Grows(a, b - 1);
    }
  }

  lemma Powers()
    ensures Pow10(8) == 100_000_000
    ensures Pow10(26) == 100_000_000_000_000_000_000_000_000 && Pow10(27) == 10 * Pow10(26)
  {
    assert Pow10(4) == 10_000;
    assert Pow10(12) == 1_000_000_000_000;
    assert Pow10(18) == 1_000_000_000_000_000_000;
    assert Pow10(22) == 10_000_000_000_000_000_000_000;
  }

  const LEAST_OVERFLOW: int := 0x8000_0000_0000_0000 * 100_000_000

  /** A trade overflows exactly when its product is large at the default scales and below one quote atom in the market. */
  lemma OverflowsIff(p: Precision, t: Trade)
    requires t.price > 0 && t.amount > 0
    ensures Overflows(p, t) <==> t.price * t.amount >= LEAST_OVERFLOW && t.price * t.amount * Pow10(p.quoteScale) < Divisor(p)
  {
    var x, d := t.price * t.amount * Pow10(p.quoteScale), Divisor(p);
    Powers();
    QuoteFailsIff(DEFAULT_PRECISION, t.price, t.amount);
    assert t.price * t.amount > 0;
    assert x >= 0;
    hide Pow10, Divisor;
    DivBounds(x, d);
    ZeroQuotient(x, d);
    DefaultScales(t.price * t.amount);
  }

  lemma ZeroQuotient(x: int, d: int)
    requires x >= 0 && d > 0
    ensures x / d == 0 <==> x < d
  {
  }

  lemma DefaultScales(x: int)
    ensures x * Pow10(8) >= (MAX_INT64 + 1) * Divisor(DEFAULT_PRECISION) <==> x >= LEAST_OVERFLOW
  {
    Powers();
  }

  /**
   * The guard on a market: none of its trades can overflow exactly when its price and quantity scales
   * exceed its quote scale by at most 26 digits.
   */
  lemma StorableMarketIff(p: Precision)
    ensures (forall t: Trade :: 0 < t.price <= MAX_INT64 && 0 < t.amount <= MAX_INT64 ==> !Overflows(p, t))
            <==> p.priceScale + p.quantityScale <= p.quoteScale + 26
  {
    if p.priceScale + p.quantityScale <= p.quoteScale + 26 {
      forall t: Trade | 0 < t.price <= MAX_INT64 && 0 < t.amount <= MAX_INT64 ensures !Overflows(p, t) {
        NeverOverflows(p, t);
      }
    } else {
      var t := Trade(0x4000_0000_0000_0000, 200_000_000);
      LeastTradeOverflows(p, t);
    }
  }

  lemma NeverOverflows(p: Precision, t: Trade)
    requires t.price > 0 && t.amount > 0 && p.priceScale + p.quantityScale <= p.quoteScale + 26
    ensures !Overflows(p, t)
  {
    var x := t.price * t.amount;
    assert x > 0;
    OverflowsIff(p, t);
    Pow10Add(p.priceScale, p.quantityScale);
    Pow10Grows(p.priceScale + p.quantityScale, 26 + p.quoteScale);
    Pow10Add(26, p.quoteScale);
    Powers();
    hide Pow10;
    if x >= LEAST_OVERFLOW {
      MulMono(Pow10(26), x, Pow10(p.quoteScale));
    }
  }

  lemma LeastTradeOverflows(p: Precision, t: Trade)
    requires t == Trade(0x4000_0000_0000_0000, 200_000_000) && p.priceScale + p.quantityScale > p.quoteScale + 26
    ensures Overflows(p, t)
  {
    OverflowsIff(p, t);
    Pow10Add(p.priceScale, p.quantityScale);
    Pow10Grows(27 + p.quoteScale, p.priceScale + p.quantityScale);
    Pow10Add(27, p.quoteScale);
    Powers();
    hide Pow10;
    assert t.price * t.amount == LEAST_OVERFLOW;
    MulMono(LEAST_OVERFLOW + 1, Pow10(27), Pow10(p.quoteScale));
    assert (LEAST_OVERFLOW + 1) * Pow10(p.quoteScale) == LEAST_OVERFLOW * Pow10(p.quoteScale) + Pow10(p.quoteScale);
  }

  // ----- one match -----

  /** How many events a match announces: one for each maker, the taker's fill, and a new order's remainder. */
  function MatchEvents(opposite: seq<Order>, order: Order, isNew: bool): nat {
    var n := |Trades(opposite, order, order.amount)|;
    n + (if n > 0 then 1 else 0)
      + (if !isNew then 0
         else if order.orderType == OrderType.Market then (if Total(Reachable(opposite, order)) < order.amount then 1 else 0)
         else if n == 0 then 1 else 0)
  }

  /** Whether and how far the taker is filled, from the book alone. */
  lemma FilledIff(p: Precision, ticker: string, opposite: seq<Order>, order: Order)
    requires Positive(opposite) && order.amount > 0 && Greedy(p, ticker, opposite, order, 0).ok
    ensures var left := Greedy(p, ticker, opposite, order, 0).taker.amount;
            && 0 <= left <= order.amount
            && (left < order.amount <==> Trades(opposite, order, order.amount) != [])
            && (left > 0 <==> Total(Reachable(opposite, order)) < order.amount)
  {
    TakesAllItCan(p, ticker, opposite, order, 0);
    ReachableIsPositive(opposite, order);
    hide Greedy;
  }

  lemma MatchEventsCounted(p: Precision, ticker: string, opposite: seq<Order>, order: Order, isNew: bool)
    requires Positive(opposite) && order.amount > 0 && Greedy(p, ticker, opposite, order, 0).ok
    ensures var g := Greedy(p, ticker, opposite, order, 0);
            |MakerChanges(g.fills)| + |TakerChanges(order, order.amount - g.taker.amount, g.taker.amount)|
            + (if isNew then |RemainderChanges(order, g.taker.amount)| else 0) == MatchEvents(opposite, order, isNew)
  {
    FilledIff(p, ticker, opposite, order);
    GreedyTrades(p, ticker, opposite, order, 0);
    Shape(p, ticker, opposite, order, 0);
    hide Greedy, Trades, Reachable, Total, HitsPrefix, Leftover;
  }

  lemma PlanMatchIs(m: Market, b: Book, c: Command, order: Order, isNew: bool, first: seq<Change>)
    ensures var g := Greedy(m.precision, m.ticker, b.On(order.side.Opposite()), order, 0);
            var plan := PlanMatch(m, b, c, order, isNew, first);
            && (plan.Planned? <==> g.ok)
            && (g.ok ==> plan.logs == g.logs)
            && (g.ok ==> |plan.changes| == |first| + |MakerChanges(g.fills)|
                         + |TakerChanges(order, order.amount - g.taker.amount, g.taker.amount)|
                         + (if isNew then |RemainderChanges(order, g.taker.amount)| else 0))
  {
    hide Greedy, MakerChanges, TakerChanges, RemainderChanges, Rest;
  }

  /** When a match succeeds, when its executions can be stored, and how much it announces. */
  lemma MatchGuards(m: Market, b: Book, c: Command, order: Order, isNew: bool, first: seq<Change>)
    requires SoundBook(b) && Incoming(order) && Absent(b, order.id) && order.timestamp != ZeroTime && m.ticker != ""
    ensures var opposite := b.On(order.side.Opposite());
            var ts := Trades(opposite, order, order.amount);
            var plan := PlanMatch(m, b, c, order, isNew, first);
            && (plan.Planned? <==> AllQuotable(m.precision, ts))
            && (plan.Planned? ==> (LogRows(plan.logs).Some? <==> AllStorable(m.precision, ts)))
            && (plan.Planned? ==> |plan.changes| == |first| + MatchEvents(opposite, order, isNew))
  {
    hide SoundBook, Greedy, Trades, LogRows, MakerChanges, TakerChanges, RemainderChanges, MatchEvents, AllQuotable, AllStorable, SoundSide, PlanMatch, IsBlank, LogsTrades, Positive, Absent;
    var opposite := b.On(order.side.Opposite());
    Batches.SoundParts(b, order.side.Opposite());
    var ts := Trades(opposite, order, order.amount);
    var g := Greedy(m.precision, m.ticker, opposite, order, 0);
    PlanMatchIs(m, b, c, order, isNew, first);
    GreedyTrades(m.precision, m.ticker, opposite, order, 0);
    MatchLogsValid(m.precision, m.ticker, opposite, order, 0);
    if g.ok {
      LogRowsIff(m.precision, g.logs, ts);
      MatchEventsCounted(m.precision, m.ticker, opposite, order, isNew);
    }
  }

  // ----- one command -----

  /** The trades a command calls for. */
  function TradesOf(b: Book, c: Command): seq<Trade> {
    match c.kind
    case CreateCommand =>
      if c.create.None? then []
      else
        var order := CreateOrderAt(c.create.value, c.recordedAt);
        Trades(b.On(order.side.Opposite()), order, order.amount)
    case AmendCommand =>
      (match if c.amend.Some? then EditOf(b, c.amend.value, c.recordedAt) else None
       case None => []
       case Some(e) => if e.requiresRematch then Trades(b.On(e.after.side.Opposite()), e.after, e.after.amount) else [])
    case CancelCommand => []
  }

  /** How many events it announces. */
  function EventCount(b: Book, c: Command): nat {
    match c.kind
    case CreateCommand =>
      if c.create.None? then 0
      else
        var order := CreateOrderAt(c.create.value, c.recordedAt);
        MatchEvents(b.On(order.side.Opposite()), order, true)
    case AmendCommand =>
      (match if c.amend.Some? then EditOf(b, c.amend.value, c.recordedAt) else None
       case None => 0
       case Some(e) => 1 + if e.requiresRematch then MatchEvents(b.On(e.after.side.Opposite()), e.after, false) else 0)
    case CancelCommand =>
      if c.cancel.Some? && Lookup(b, c.cancel.value.orderID).Some? then 1 else 0
  }

  /** The guard on the event batch: it is empty, or its command can be named and it fits int32 numbering. */
  predicate Announceable(b: Book, c: Command) {
    && EventCount(b, c) <= INT32_LIMIT
    && (EventCount(b, c) > 0 ==> !IsBlank(c.commandID) && !IsBlank(c.ticker) && c.sequence > 0)
  }

  /** A side too short to trade 2^31 times cannot overflow the numbering. */
  lemma EventCountBound(b: Book, c: Command)
    ensures EventCount(b, c) <= |b.bids| + |b.asks| + 3
  {
    hide Trades, Reachable, Total, EditOf, Lookup;
  }

  /** What a command announces and may execute, planned or not. */
  lemma CommandGuards(m: Market, b: Book, c: Command)
    requires SoundBook(b) && (CreatedID(c).Some? ==> Absent(b, CreatedID(c).value)) && m.ticker != ""
    ensures var plan := PlanCommand(m, b, c);
            && (plan.Planned? <==> Accepts(m, c) && AllQuotable(m.precision, TradesOf(b, c)))
            && (plan.Planned? ==> (LogRows(plan.logs).Some? <==> AllStorable(m.precision, TradesOf(b, c))))
            && (plan.Planned? ==> |plan.changes| == EventCount(b, c))
  {
    hide SoundBook, PlanMatch, ApplyEdit, Absent, Trades, MatchEvents, AllQuotable, AllStorable, LogRows, Lookup, Withdraw, IsBlank;
    NothingToStore(m.precision);
    if Accepts(m, c) {
      match c.kind
      case CreateCommand =>
        CreatedIncoming(c);
        MatchGuards(m, b, c, CreateOrderAt(c.create.value, c.recordedAt), true, []);
      case AmendCommand =>
        var edit := EditOf(b, c.amend.value, c.recordedAt);
        if edit.Some? {
          var e := edit.value;
          EditSound(b, c.amend.value, c.recordedAt);
          if e.requiresRematch {
            OppositeKept(b, c.amend.value, c.recordedAt);
            MatchGuards(m, ApplyEdit(b, e), c, e.after, false, [AmendedChange(e.before, e.after)]);
          }
        }
      case CancelCommand =>
    }
  }

  lemma NothingToStore(p: Precision)
    ensures AllQuotable(p, []) && AllStorable(p, []) && LogRows([]).Some?
  {
  }

  /** The event batch of a planned command passes validation exactly under the guard on it. */
  lemma EventsPassIff(m: Market, b: Book, c: Command)
    requires SoundBook(b) && (CreatedID(c).Some? ==> Absent(b, CreatedID(c).value))
    requires m.ticker != "" && m.precision.configVersion >= 0 && PlanCommand(m, b, c).Planned?
    ensures AllValid(EventsOf(PlanCommand(m, b, c))) <==> Announceable(b, c)
  {
    hide SoundBook, PlanCommand, Absent, AllValid, Stamped, IsBlank, EventCount;
    CommandGuards(m, b, c);
    BatchPassesIff(m, b, c);
  }

  /**
   * Exactly when a command applies: it is accepted, every quote of its trades can be expressed, none
   * overflows when it is stored, and its event batch is empty or can be named and numbered.
   */
  lemma AppliesIff(m: Market, b: Book, c: Command)
    requires SoundBook(b) && (CreatedID(c).Some? ==> Absent(b, CreatedID(c).value))
    requires m.ticker != "" && m.precision.configVersion >= 0
    ensures Applies(m, b, c) <==>
              && Accepts(m, c) && AllQuotable(m.precision, TradesOf(b, c))
              && AllStorable(m.precision, TradesOf(b, c)) && Announceable(b, c)
  {
    hide SoundBook, PlanCommand, Absent, AllQuotable, AllStorable, LogRows, AllValid, Stamped, IsBlank, EventCount, TradesOf;
    CommandGuards(m, b, c);
    if PlanCommand(m, b, c).Planned? {
      EventsPassIff(m, b, c);
    }
  }

  /** In a market that keeps the guard on its scales no execution is ever refused by the store. */
  lemma StorableMarket(m: Market, b: Book, c: Command)
    requires SoundBook(b) && (CreatedID(c).Some? ==> Absent(b, CreatedID(c).value)) && m.ticker != ""
    requires m.precision.priceScale + m.precision.quantityScale <= m.precision.quoteScale + 26
    ensures PlanCommand(m, b, c).Planned? ==> LogRows(PlanCommand(m, b, c).logs).Some?
  {
    CommandGuards(m, b, c);
    forall i | 0 <= i < |TradesOf(b, c)| ensures !Overflows(m.precision, TradesOf(b, c)[i]) {
      var t := TradesOf(b, c)[i];
      if t.price > 0 && t.amount > 0 {
        NeverOverflows(m.precision, t);
      } else {
        SmallTrade(m.precision, t);
      }
    }
    hide PlanCommand, TradesOf, SoundBook;
  }

  lemma SmallTrade(p: Precision, t: Trade)
    requires t.price <= 0 || t.amount <= 0
    ensures !Overflows(p, t)
  {
    QuoteFailsIff(DEFAULT_PRECISION, t.price, t.amount);
    Powers();
  }

  // ----- an input for each guard that fails -----

  function Limited(id: string, side: Side, price: Int64, amount: Int64, sequence: int): Command {
    Command(id, "A", sequence, CreateCommand, At(sequence), 1,
            Some(CreateOrderRequest(id, "A", "t", Limit, side, price, amount, 0)), None, None)
  }

  lemma LetterIsNotBlank()
    ensures !IsBlank("A") && !IsBlank("t") && !IsBlank("1") && !IsBlank("2") && IsBlank(" ")
  {
    assert !IsSpace('A') && !IsSpace('t') && !IsSpace('1') && !IsSpace('2') && IsSpace(' ');
    assert TrimLeft(" ") == TrimLeft("");
  }

  /** A limit order on an empty book rests and does nothing else. */
  lemma FirstRests(m: Market, c: Command)
    requires Accepts(m, c) && c.kind == CreateCommand && c.create.value.orderType == Limit
    ensures var plan := PlanCommand(m, EMPTY_BOOK, c);
            && plan.Planned? && plan.final == Rest(EMPTY_BOOK, CreateOrderAt(c.create.value, c.recordedAt)) && plan.logs == []
            && plan.changes == [RestingChange(CreateOrderAt(c.create.value, c.recordedAt))]
  {
  }

  /**
   * A command the journal accepts and matching takes, refused at its event batch: its id is white space.
   */
  lemma BlankIDIsRefused()
    ensures var m, c := Market.Market("A", DEFAULT_PRECISION), Limited(" ", Bid, 1, 1, 1);
            && Validate(c) && PlanCommand(m, EMPTY_BOOK, c).Planned? && EventCount(EMPTY_BOOK, c) == 1
            && !Announceable(EMPTY_BOOK, c) && !Applies(m, EMPTY_BOOK, c) && !Replayed(m, [c]).ok
  {
    var m, c := Market.Market("A", DEFAULT_PRECISION), Limited(" ", Bid, 1, 1, 1);
    LetterIsNotBlank();
    hide IsBlank, PlanCommand, Replayed, Applies, SoundBook, AllQuotable, AllStorable, Absent;
    FirstRests(m, c);
    NothingRests();
    AppliesIff(m, EMPTY_BOOK, c);
    RunOfOne(m, c);
  }

  lemma NothingRests()
    ensures SoundBook(EMPTY_BOOK) && forall id :: Absent(EMPTY_BOOK, id)
  {
  }

  lemma RunOfOne(m: Market, c: Command)
    ensures Replayed(m, [c]).ok <==> Applies(m, EMPTY_BOOK, c)
    ensures Replayed(m, [c]).ok ==> PlanCommand(m, EMPTY_BOOK, c).Planned? && Replayed(m, [c]).book == PlanCommand(m, EMPTY_BOOK, c).final
  {
    hide PlanCommand, Applies, LogRows, EventRows, Stamped;
    assert [c][..0] == [];
    AdvanceOkIff(m, START, c);
  }

  const WIDE := Precision(18, 18, 8, 1)

  const WIDE_ASK := Limited("1", Ask, 1_000_000_000, 1_000_000_000_000_000_000, 1)
  const WIDE_BID := Limited("2", Bid, 1_000_000_000, 1_000_000_000_000_000_000, 2)

  /**
   * Two accepted commands, the second of which matches and announces validly, but whose one execution the
   * store refuses: its quote is zero in the market and overflows at the default scales.
   */
  lemma RecomputedQuoteIsRefused()
    ensures var m := Market.Market("A", WIDE);
            var b := Replayed(m, [WIDE_ASK]).book;
            && Replayed(m, [WIDE_ASK]).ok && Accepts(m, WIDE_BID) && PlanCommand(m, b, WIDE_BID).Planned? && Announceable(b, WIDE_BID)
            && LogRows(PlanCommand(m, b, WIDE_BID).logs) == None && !Replayed(m, [WIDE_ASK, WIDE_BID]).ok
  {
    hide IsBlank, PlanCommand, Replayed, SoundBook, AllQuotable, AllStorable, Trades, MatchEvents, LogRows, Applies, Overflows, Quotable, Accepts;
    var m := Market.Market("A", WIDE);
    var resting := CreateOrderAt(WIDE_ASK.create.value, WIDE_ASK.recordedAt);
    LetterIsNotBlank();
    WideAccepted();
    AskRests(m, WIDE_ASK);
    OneTrade(resting, CreateOrderAt(WIDE_BID.create.value, WIDE_BID.recordedAt));
    var b := Book([], [resting]);
    CommandGuards(m, b, WIDE_BID);
    OnlyTrade(WIDE, Trade(resting.price, resting.amount));
    RunOfTwo(m, WIDE_ASK, WIDE_BID);
    StorableWhenApplied(m, b, WIDE_BID);
  }

  lemma WideAccepted()
    ensures var m := Market.Market("A", WIDE); Accepts(m, WIDE_ASK) && Accepts(m, WIDE_BID)
  {
    LetterIsNotBlank();
    hide IsBlank;
  }

  lemma StorableWhenApplied(m: Market, b: Book, c: Command)
    ensures Applies(m, b, c) ==> LogRows(PlanCommand(m, b, c).logs).Some?
  {
    hide PlanCommand, LogRows;
  }

  lemma OnlyTrade(p: Precision, t: Trade)
    ensures AllQuotable(p, [t]) == Quotable(p, t) && AllStorable(p, [t]) == !Overflows(p, t)
  {
    assert [t][0] == t;
  }

  /** After one limit ask the book holds that ask and nothing else. */
  lemma AskRests(m: Market, ask: Command)
    requires Accepts(m, ask) && ask.kind == CreateCommand && ask.create.value.orderType == Limit && ask.create.value.side == Ask
    requires m.ticker != "" && m.precision.configVersion >= 0
    requires !IsBlank(ask.commandID) && !IsBlank(ask.ticker) && ask.sequence > 0
    ensures var resting := CreateOrderAt(ask.create.value, ask.recordedAt);
            && Replayed(m, [ask]).ok && Replayed(m, [ask]).book == Book([], [resting])
            && SoundBook(Book([], [resting])) && Ids([resting]) == {resting.id} && Ids([]) == {}
  {
    hide IsBlank, IsBlankID, PlanCommand, Replayed, Applies, Absent;
    FirstRests(m, ask);
    NothingRests();
    CreatedIncoming(ask);
    AppliesIff(m, EMPTY_BOOK, ask);
    NothingToStore(m.precision);
    RunOfOne(m, ask);
    IdsOne(CreateOrderAt(ask.create.value, ask.recordedAt));
  }

  lemma IdsOne(o: Order)
    ensures Ids([o]) == {o.id} && Ids([]) == {}
  {
    IdsCons([o]);
  }

  lemma OneTrade(ask: Order, bid: Order)
    requires ask.price == 1_000_000_000 && ask.amount == 1_000_000_000_000_000_000
    requires bid.price == ask.price && bid.amount == ask.amount && bid.side == Bid && bid.orderType == Limit
    ensures Trades([ask], bid, bid.amount) == [Trade(ask.price, ask.amount)] && MatchEvents([ask], bid, true) == 2
    ensures Quotable(WIDE, Trade(ask.price, ask.amount)) && Overflows(WIDE, Trade(ask.price, ask.amount))
  {
    assert [ask][1..] == [];
    var t := Trade(ask.price, ask.amount);
    OverflowsIff(WIDE, t);
    Powers();
    Pow10Add(18, 18);
    assert Pow10(18) == 1_000_000_000_000_000_000;
  }

  lemma RunOfTwo(m: Market, c: Command, d: Command)
    requires Replayed(m, [c]).ok
    ensures Replayed(m, [c, d]).ok <==> Applies(m, Replayed(m, [c]).book, d)
  {
    assert [c, d][..1] == [c];
    AdvanceOkIff(m, Replayed(m, [c]), d);
    hide Advance;
  }
}
