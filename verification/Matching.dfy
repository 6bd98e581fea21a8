/**
 * Price-time matching. Greedy is the specification: it eats the opposite side of the flat book from
 * the front until the taker is filled, its limit no longer crosses, or a quote cannot be expressed.
 */
module Matching {
  import opened Models
  import opened Numeric
  import opened FlatBook
  import opened Levels
  import opened Heaps
  import opened Sides
  import opened OrderBooks

  /** The identity of one fill of an incoming order; stands for a digest of these four values. */
  datatype ExecutionID = ExecutionID(ticker: string, takerOrderID: OrderID, matchedAt: Time, sequence: nat)

  datatype MatchLog = MatchLog(
    executionID: ExecutionID,
    ticker: string,
    price: int,
    amount: int,
    quoteAmount: int,
    marketConfigVersion: int,
    makerOrderID: OrderID,
    takerOrderID: OrderID,
    makerUserID: string,
    takerUserID: string,
    makerSide: Side,
    takerSide: Side,
    matchedAt: Time)

  /** One maker's change in one execution; order is its value before it. */
  datatype MakerFill = MakerFill(order: Order, previousAmount: int, filledAmount: int, remainingAmount: int)

  datatype MatchResult = MatchResult(
    residual: Option<Order>, logs: seq<MatchLog>, transitions: seq<MakerFill>, failed: bool)

  function MinQuantity(left: int, right: int): int {
    if left < right then left else right
  }

  predicate CanMatchAtPrice(taker: Order, oppositePrice: int) {
    taker.orderType == Market || (if taker.side == Bid then taker.price >= oppositePrice else taker.price <= oppositePrice)
  }

  function NewMatchLog(p: Precision, ticker: string, taker: Order, maker: Order, price: int, amount: int, sequence: nat)
    : (log: Result<MatchLog, string>)
  {
    match QuoteAmount(p, price, amount)
    case Err(e) => Err(e)
    case Ok(quote) =>
      Ok(MatchLog(ExecutionID(ticker, taker.id, taker.timestamp, sequence), ticker, price, amount, quote,
                  p.configVersion, maker.id, taker.id, maker.userID, taker.userID, maker.side, taker.side,
                  taker.timestamp))
  }

  // ----- specification -----

  /** Where matching stops: the opposite side left, the taker left, and what happened on the way. */
  datatype Matched = Matched(
    opposite: seq<Order>, taker: Order, logs: seq<MatchLog>, fills: seq<MakerFill>, ok: bool)

  predicate Stops(opposite: seq<Order>, taker: Order) {
    opposite == [] || taker.amount <= 0 || !CanMatchAtPrice(taker, opposite[0].price)
  }

  function FillOf(maker: Order, t: int): MakerFill {
    MakerFill(maker, maker.amount, t, maker.amount - t)
  }

  /** Greedy price-time matching; n numbers the next execution. */
  function Greedy(p: Precision, ticker: string, opposite: seq<Order>, taker: Order, n: nat): Matched
    decreases |opposite|, if taker.amount > 0 then taker.amount else 0
  {
    if Stops(opposite, taker) then Matched(opposite, taker, [], [], true)
    else
      var maker := opposite[0];
      var t := MinQuantity(taker.amount, maker.amount);
      match NewMatchLog(p, ticker, taker, maker, maker.price, t, n)
      case Err(_) => Matched(opposite, taker, [], [], false)
      case Ok(log) =>
        After([log], [FillOf(maker, t)],
              Greedy(p, ticker, Eaten(opposite, t), taker.(amount := taker.amount - t), n + 1))
  }

  function After(logs: seq<MatchLog>, fills: seq<MakerFill>, m: Matched): Matched {
    m.(logs := logs + m.logs, fills := fills + m.fills)
  }

  lemma AfterAfter(logs1: seq<MatchLog>, fills1: seq<MakerFill>, logs2: seq<MatchLog>, fills2: seq<MakerFill>, m: Matched)
    ensures After(logs1, fills1, After(logs2, fills2, m)) == After(logs1 + logs2, fills1 + fills2, m)
  {
    assert logs1 + (logs2 + m.logs) == logs1 + logs2 + m.logs;
    assert fills1 + (fills2 + m.fills) == fills1 + fills2 + m.fills;
  }

  // ----- the loop -----

  /** One round of the matching loop: the incoming order trades with the front of the best opposite level. */
  method FillBest(book: OrderBook, incoming: BookOrder, n: nat) returns (entry: Result<MatchLog, string>, fill: MakerFill)
    requires book.Valid() && incoming !in book.Repr()
    requires book.View().On(incoming.position.Opposite()) != [] && incoming.amount > 0
    modifies book.Repr(), incoming`amount
    ensures book.Valid() && book.Repr() == old(book.Repr())
    ensures var side := incoming.position.Opposite();
            var maker := old(book.View()).On(side)[0];
            var t := MinQuantity(old(incoming.amount), maker.amount);
            && fill == FillOf(maker, t)
            && entry == NewMatchLog(book.precision, book.ticker, old(incoming.Snapshot()), maker, maker.price, t, n)
            && incoming.Snapshot() == old(incoming.Snapshot()).(amount := if entry.Ok? then old(incoming.amount) - t else old(incoming.amount))
            && book.View() == if entry.Ok? then old(book.View()).With(side, Eaten(old(book.View()).On(side), t)) else old(book.View())
  {
    hide OrderBook.Valid, Eaten;
    var side := incoming.position.Opposite();
    book.BestOf(side);
    var best := book.On(side).heap.Peek().value;
    var elem := best.queue.Front().value;
    var target := elem.value;
    var tradeAmount := MinQuantity(incoming.amount, target.amount);
    var before := target.Snapshot();
    fill := MakerFill(before, before.amount, tradeAmount, target.amount - tradeAmount);
    entry := NewMatchLog(book.precision, book.ticker, incoming.Snapshot(), before, best.price, tradeAmount, n);
    if entry.Ok? {
      incoming.amount := incoming.amount - tradeAmount;
      book.Consume(side, best, elem, tradeAmount);
    }
  }

  /**
   * Consumes an incoming order against the book, price priority first and first-in first-out within
   * a price. Fails in the middle, with the executions so far applied, when a quote cannot be expressed.
   */
  method Match(book: OrderBook, incoming: BookOrder) returns (result: MatchResult)
    requires book.Valid() && incoming !in book.Repr()
    modifies book.Repr(), incoming`amount
    ensures book.Valid() && book.Repr() == old(book.Repr())
    ensures var side := incoming.position.Opposite();
            var g := Greedy(book.precision, book.ticker, old(book.View()).On(side), old(incoming.Snapshot()), 0);
            && book.View() == old(book.View()).With(side, g.opposite)
            && incoming.Snapshot() == g.taker
            && result.logs == g.logs && result.transitions == g.fills && result.failed == !g.ok
            && result.residual == if g.ok && g.taker.amount <= 0 then None else Some(g.taker)
  {
    hide OrderBook.Valid, OrderBook.Repr, Eaten, NewMatchLog, Greedy, After, MinQuantity;
    var side := incoming.position.Opposite();
    ghost var goal := Greedy(book.precision, book.ticker, book.View().On(side), incoming.Snapshot(), 0);
    AfterNothing(goal);
    var logs: seq<MatchLog>, fills: seq<MakerFill> := [], [];
    while true
      invariant book.Valid() && book.Repr() == old(book.Repr())
      invariant incoming.Snapshot() == old(incoming.Snapshot()).(amount := incoming.amount)
      invariant book.View() == old(book.View()).With(side, book.View().On(side))
      invariant goal == After(logs, fills, Greedy(book.precision, book.ticker, book.View().On(side), incoming.Snapshot(), |logs|))
      decreases |book.View().On(side)|, if incoming.amount > 0 then incoming.amount else 0
    {
      book.BestOf(side);
      GreedyExits(book.precision, book.ticker, book.View().On(side), incoming.Snapshot(), logs, fills);
      var best := book.On(side).heap.Peek();
      if best == None || incoming.amount <= 0 || !CanMatchAtPrice(incoming.Snapshot(), best.value.price) {
        break;
      }
      ghost var opposite, taker := book.View().On(side), incoming.Snapshot();
      var entry, fill := FillBest(book, incoming, |logs|);
      if entry.Err? {
        return MatchResult(Some(incoming.Snapshot()), logs, fills, true);
      }
      GreedyRound(book.precision, book.ticker, opposite, taker, logs, fills, entry.value);
      logs := logs + [entry.value];
      fills := fills + [fill];
    }
    var residual := if incoming.amount <= 0 then None else Some(incoming.Snapshot());
    result := MatchResult(residual, logs, fills, false);
  }

  lemma AfterNothing(m: Matched)
    ensures After([], [], m) == m
  {
    assert [] + m.logs == m.logs && [] + m.fills == m.fills;
  }

  /** How the loop may end: nothing more to trade, or a quote that cannot be expressed. */
  lemma GreedyExits(p: Precision, ticker: string, opposite: seq<Order>, taker: Order, logs: seq<MatchLog>, fills: seq<MakerFill>)
    ensures var g := After(logs, fills, Greedy(p, ticker, opposite, taker, |logs|));
            && (Stops(opposite, taker) ==> g == Matched(opposite, taker, logs, fills, true))
            && (!Stops(opposite, taker)
                && NewMatchLog(p, ticker, taker, opposite[0], opposite[0].price, MinQuantity(taker.amount, opposite[0].amount), |logs|).Err?
                ==> g == Matched(opposite, taker, logs, fills, false))
  {
    hide NewMatchLog, MinQuantity, Eaten;
    assert logs + [] == logs && fills + [] == fills;
  }

  lemma GreedyRound(p: Precision, ticker: string, opposite: seq<Order>, taker: Order,
                    logs: seq<MatchLog>, fills: seq<MakerFill>, log: MatchLog)
    requires !Stops(opposite, taker)
    requires NewMatchLog(p, ticker, taker, opposite[0], opposite[0].price,
                         MinQuantity(taker.amount, opposite[0].amount), |logs|) == Ok(log)
    ensures var t := MinQuantity(taker.amount, opposite[0].amount);
            && After(logs, fills, Greedy(p, ticker, opposite, taker, |logs|))
               == After(logs + [log], fills + [FillOf(opposite[0], t)],
                        Greedy(p, ticker, Eaten(opposite, t), taker.(amount := taker.amount - t), |logs| + 1))
            && (|Eaten(opposite, t)| < |opposite| || (|Eaten(opposite, t)| == |opposite| && taker.amount - t == 0))
  {
    var t := MinQuantity(taker.amount, opposite[0].amount);
    AfterAfter(logs, fills, [log], [FillOf(opposite[0], t)],
               Greedy(p, ticker, Eaten(opposite, t), taker.(amount := taker.amount - t), |logs| + 1));
  }
}
