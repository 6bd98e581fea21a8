/** What one run of matching guarantees, for every opposite side and every taker. */
module MatchingLaws {
  import opened Models
  import opened Numeric
  import opened FlatBook
  import opened Levels
  import opened Matching

  /** One step of Greedy, named, for the inductions below. */
  function Traded(opposite: seq<Order>, taker: Order): int
    requires opposite != []
  {
    MinQuantity(taker.amount, opposite[0].amount)
  }

  function Remaining(opposite: seq<Order>, taker: Order): Order
    requires opposite != []
  {
    taker.(amount := taker.amount - Traded(opposite, taker))
  }

  predicate Steps(p: Precision, opposite: seq<Order>, taker: Order) {
    !Stops(opposite, taker) && QuoteAmount(p, opposite[0].price, Traded(opposite, taker)).Ok?
  }

  /** One step of Greedy, unfolded. */
  lemma StepUnfolds(p: Precision, ticker: string, opposite: seq<Order>, taker: Order, n: nat)
    ensures var g := Greedy(p, ticker, opposite, taker, n);
            if Steps(p, opposite, taker) then
              var t := Traded(opposite, taker);
              var rest := Greedy(p, ticker, Eaten(opposite, t), Remaining(opposite, taker), n + 1);
              && g.opposite == rest.opposite && g.taker == rest.taker && g.ok == rest.ok
              && g.fills == [FillOf(opposite[0], t)] + rest.fills
              && g.logs != [] && g.logs[1..] == rest.logs
              && Ok(g.logs[0]) == NewMatchLog(p, ticker, taker, opposite[0], opposite[0].price, t, n)
            else g.fills == [] && g.logs == [] && g.opposite == opposite && g.taker == taker
  {
  }

  /** Matching ends without an error exactly when nothing more can trade. */
  lemma {:induction false} EndsOkIffStops(p: Precision, ticker: string, opposite: seq<Order>, taker: Order, n: nat)
    ensures var g := Greedy(p, ticker, opposite, taker, n);
            && (g.ok <==> Stops(g.opposite, g.taker))
            && (!g.ok ==> QuoteAmount(p, g.opposite[0].price, Traded(g.opposite, g.taker)).Err?)
            && g.taker == taker.(amount := g.taker.amount)
    decreases |opposite|, if taker.amount > 0 then taker.amount else 0
  {
    if Steps(p, opposite, taker) {
      EndsOkIffStops(p, ticker, Eaten(opposite, Traded(opposite, taker)), Remaining(opposite, taker), n + 1);
    }
  }

  ghost predicate Positive(s: seq<Order>) {
    forall i :: 0 <= i < |s| ==> s[i].amount > 0
  }

  /** The opposite side after its first k orders were eaten, the last of them down to left lots. */
  function Leftover(opposite: seq<Order>, k: nat, left: int): seq<Order>
    requires k <= |opposite|
  {
    if k == 0 || left == 0 then opposite[k..]
    else [opposite[k - 1].(amount := left)] + opposite[k..]
  }

  /** The executions of a match: a prefix of the opposite side, each maker once, all but the last filled. */
  ghost predicate HitsPrefix(opposite: seq<Order>, fills: seq<MakerFill>) {
    && |fills| <= |opposite|
    && (forall i :: 0 <= i < |fills| ==>
          && 0 < fills[i].filledAmount <= opposite[i].amount
          && fills[i] == FillOf(opposite[i], fills[i].filledAmount))
    && (forall i :: 0 <= i < |fills| - 1 ==> fills[i].remainingAmount == 0)
  }

  function LastLeft(fills: seq<MakerFill>): int {
    if fills == [] then 0 else fills[|fills| - 1].remainingAmount
  }

  lemma HitsPrefixCons(opposite: seq<Order>, fills: seq<MakerFill>)
    requires opposite != [] && opposite[0].amount > 0 && HitsPrefix(opposite[1..], fills)
    ensures HitsPrefix(opposite, [FillOf(opposite[0], opposite[0].amount)] + fills)
    ensures LastLeft([FillOf(opposite[0], opposite[0].amount)] + fills) == LastLeft(fills)
    ensures Leftover(opposite, |fills| + 1, LastLeft(fills)) == Leftover(opposite[1..], |fills|, LastLeft(fills))
  {
    var all := [FillOf(opposite[0], opposite[0].amount)] + fills;
    forall i | 0 <= i < |all|
      ensures 0 < all[i].filledAmount <= opposite[i].amount && all[i] == FillOf(opposite[i], all[i].filledAmount)
    {
      if i > 0 {
        assert all[i] == fills[i - 1] && opposite[i] == opposite[1..][i - 1];
      }
    }
    assert opposite[1..][|fills|..] == opposite[|fills| + 1..];
  }

  lemma HitsPrefixLast(opposite: seq<Order>, t: int)
    requires opposite != [] && 0 < t < opposite[0].amount
    ensures HitsPrefix(opposite, [FillOf(opposite[0], t)])
    ensures LastLeft([FillOf(opposite[0], t)]) == opposite[0].amount - t
    ensures Eaten(opposite, t) == Leftover(opposite, 1, opposite[0].amount - t)
  {
  }

  /**
   * The makers hit are a prefix of the opposite side, each exactly once and in order; all but the
   * last are filled completely, a last one left with lots means the taker is filled, and the side
   * left over is the rest.
   */
  lemma {:induction false} Shape(p: Precision, ticker: string, opposite: seq<Order>, taker: Order, n: nat)
    requires Positive(opposite)
    ensures var g := Greedy(p, ticker, opposite, taker, n);
            && |g.logs| == |g.fills| && HitsPrefix(opposite, g.fills)
            && (LastLeft(g.fills) > 0 ==> g.taker.amount == 0)
            && g.opposite == Leftover(opposite, |g.fills|, LastLeft(g.fills))
    decreases |opposite|, if taker.amount > 0 then taker.amount else 0
  {
    if Steps(p, opposite, taker) {
      hide HitsPrefix, Leftover, LastLeft;
      var t := Traded(opposite, taker);
      if opposite[0].amount <= t {
        assert Eaten(opposite, t) == opposite[1..];
        Shape(p, ticker, opposite[1..], Remaining(opposite, taker), n + 1);
        HitsPrefixCons(opposite, Greedy(p, ticker, opposite[1..], Remaining(opposite, taker), n + 1).fills);
      } else {
        HitsPrefixLast(opposite, t);
        assert Stops(Eaten(opposite, t), Remaining(opposite, taker));
      }
    }
  }

  function LogTotal(logs: seq<MatchLog>): int {
    if logs == [] then 0 else logs[0].amount + LogTotal(logs[1..])
  }

  function FillTotal(fills: seq<MakerFill>): int {
    if fills == [] then 0 else fills[0].filledAmount + FillTotal(fills[1..])
  }

  /** What the taker loses, the executions record, the makers lose and the side loses is one amount. */
  lemma {:induction false} Conserves(p: Precision, ticker: string, opposite: seq<Order>, taker: Order, n: nat)
    ensures var g := Greedy(p, ticker, opposite, taker, n);
            taker.amount - g.taker.amount == LogTotal(g.logs) == FillTotal(g.fills) == Total(opposite) - Total(g.opposite)
    decreases |opposite|, if taker.amount > 0 then taker.amount else 0
  {
    if Steps(p, opposite, taker) {
      var t := Traded(opposite, taker);
      Conserves(p, ticker, Eaten(opposite, t), Remaining(opposite, taker), n + 1);
      var rest := Greedy(p, ticker, Eaten(opposite, t), Remaining(opposite, taker), n + 1);
      var g := Greedy(p, ticker, opposite, taker, n);
      assert g.logs[1..] == rest.logs && g.fills[1..] == rest.fills;
      if opposite[0].amount > t {
        assert Eaten(opposite, t)[1..] == opposite[1..];
      }
    }
  }

  /** The crossing prefix: all the liquidity a taker may reach. */
  function Reachable(opposite: seq<Order>, taker: Order): seq<Order> {
    if opposite == [] || !CanMatchAtPrice(taker, opposite[0].price) then []
    else [opposite[0]] + Reachable(opposite[1..], taker)
  }

  /** An error-free match takes as much as the taker wants and the reachable liquidity offers, no less. */
  lemma {:induction false} TakesAllItCan(p: Precision, ticker: string, opposite: seq<Order>, taker: Order, n: nat)
    requires Positive(opposite) && taker.amount >= 0
    ensures var g := Greedy(p, ticker, opposite, taker, n);
            g.ok ==> taker.amount - g.taker.amount == MinQuantity(taker.amount, Total(Reachable(opposite, taker)))
    decreases |opposite|, taker.amount
  {
    ReachableIsPositive(opposite, taker);
    if Steps(p, opposite, taker) {
      var t := Traded(opposite, taker);
      var rest := Remaining(opposite, taker);
      assert Reachable(opposite, taker)[1..] == Reachable(opposite[1..], taker);
      ReachableSame(opposite[1..], taker, rest);
      ReachableIsPositive(opposite[1..], rest);
      if opposite[0].amount <= t {
        assert Eaten(opposite, t) == opposite[1..];
        TakesAllItCan(p, ticker, opposite[1..], rest, n + 1);
      }
    }
  }

  lemma ReachableIsPositive(opposite: seq<Order>, taker: Order)
    requires Positive(opposite)
    ensures Total(Reachable(opposite, taker)) >= 0
    ensures !Stops(opposite, taker) ==> Total(Reachable(opposite, taker)) >= opposite[0].amount
  {
    if opposite != [] {
      ReachableIsPositive(opposite[1..], taker);
      assert Reachable(opposite, taker) != [] ==> Reachable(opposite, taker)[1..] == Reachable(opposite[1..], taker);
    }
  }

  lemma ReachableSame(opposite: seq<Order>, taker: Order, other: Order)
    requires other == taker.(amount := other.amount)
    ensures Reachable(opposite, taker) == Reachable(opposite, other)
  {
  }

  /** A price a taker may trade at: any for a market order, no worse than its limit for a limit order. */
  predicate WithinLimit(taker: Order, price: int) {
    match taker.orderType
    case Market => true
    case Limit =>
      (match taker.side
       case Bid => price <= taker.price
       case Ask => price >= taker.price)
  }

  /** What one execution records: who traded with whom, at the maker's price, for the rounded-down quote. */
  predicate Records(p: Precision, log: MatchLog, maker: Order, taker: Order) {
    && log.price == maker.price && WithinLimit(taker, log.price) && log.marketConfigVersion == p.configVersion
    && log.makerOrderID == maker.id && log.makerUserID == maker.userID && log.makerSide == maker.side
    && log.takerOrderID == taker.id && log.takerUserID == taker.userID && log.takerSide == taker.side
    && var exact := log.price * log.amount * Pow10(p.quoteScale);
       log.quoteAmount * Divisor(p) <= exact < log.quoteAmount * Divisor(p) + Divisor(p) && log.quoteAmount <= MAX_INT64
  }

  /** Execution i records a trade of the taker with the i-th order of the side. */
  ghost predicate FollowsMakers(p: Precision, opposite: seq<Order>, taker: Order, logs: seq<MatchLog>) {
    && |logs| <= |opposite|
    && forall i :: 0 <= i < |logs| ==> Records(p, logs[i], opposite[i], taker)
  }

  lemma FollowsMakersCons(p: Precision, opposite: seq<Order>, taker: Order, log: MatchLog, logs: seq<MatchLog>)
    requires opposite != [] && FollowsMakers(p, opposite[1..], taker, logs) && Records(p, log, opposite[0], taker)
    ensures FollowsMakers(p, opposite, taker, [log] + logs)
  {
  }

  lemma NothingFollows(p: Precision, opposite: seq<Order>, taker: Order)
    ensures FollowsMakers(p, opposite, taker, [])
  {
  }

  lemma StepRecords(p: Precision, ticker: string, opposite: seq<Order>, taker: Order, n: nat)
    requires Steps(p, opposite, taker)
    ensures Records(p, Greedy(p, ticker, opposite, taker, n).logs[0], opposite[0], taker)
  {
    hide Greedy;
    StepUnfolds(p, ticker, opposite, taker, n);
    var maker, t := opposite[0], Traded(opposite, taker);
    if maker.price >= 0 && t >= 0 {
      assert maker.price * t >= 0;
      var x := maker.price * t * Pow10(p.quoteScale);
      assert x >= 0;
      DivBounds(x, Divisor(p));
    }
  }

  lemma SameTaker(p: Precision, opposite: seq<Order>, taker: Order, other: Order, logs: seq<MatchLog>)
    requires FollowsMakers(p, opposite, other, logs) && other == taker.(amount := other.amount)
    ensures FollowsMakers(p, opposite, taker, logs)
  {
  }

  lemma {:induction false} MakersInOrder(p: Precision, ticker: string, opposite: seq<Order>, taker: Order, n: nat)
    ensures FollowsMakers(p, opposite, taker, Greedy(p, ticker, opposite, taker, n).logs)
    decreases |opposite|, if taker.amount > 0 then taker.amount else 0
  {
    hide FollowsMakers, Records;
    NothingFollows(p, opposite, taker);
    if Steps(p, opposite, taker) {
      var t := Traded(opposite, taker);
      var g := Greedy(p, ticker, opposite, taker, n);
      var rest := Greedy(p, ticker, Eaten(opposite, t), Remaining(opposite, taker), n + 1);
      StepRecords(p, ticker, opposite, taker, n);
      NothingFollows(p, opposite[1..], taker);
      if opposite[0].amount <= t {
        MakersInOrder(p, ticker, opposite[1..], Remaining(opposite, taker), n + 1);
        SameTaker(p, opposite[1..], taker, Remaining(opposite, taker), rest.logs);
      }
      FollowsMakersCons(p, opposite, taker, g.logs[0], rest.logs);
    }
  }

  /** Prices never improve along the executions of one match, and none passes a limit order's own price. */
  lemma PricesWorsen(p: Precision, ticker: string, side: Side, opposite: seq<Order>, taker: Order, n: nat)
    requires Sorted(side, opposite)
    ensures var logs := Greedy(p, ticker, opposite, taker, n).logs;
            && (forall i, j :: 0 <= i < j < |logs| ==> !Better(side, logs[j].price, logs[i].price))
            && (forall i :: 0 <= i < |logs| ==> WithinLimit(taker, logs[i].price))
  {
    hide Greedy;
    MakersInOrder(p, ticker, opposite, taker, n);
  }

  // ----- how much trades -----

  /** What rests on a side at prices a taker may trade at. */
  function Crossing(s: seq<Order>, taker: Order): int {
    if s == [] then 0 else (if WithinLimit(taker, s[0].price) then s[0].amount else 0) + Crossing(s[1..], taker)
  }

  /** A market order may trade with everything. */
  lemma MarketCrossesAll(s: seq<Order>, taker: Order)
    requires taker.orderType == Market
    ensures Crossing(s, taker) == Total(s)
  {
  }

  lemma {:induction false} NothingCrosses(s: seq<Order>, taker: Order)
    requires Sorted(taker.side.Opposite(), s) && (s == [] || !WithinLimit(taker, s[0].price))
    ensures Crossing(s, taker) == 0
  {
    if s != [] {
      SortedTail(taker.side.Opposite(), s);
      assert |s| > 1 ==> !Better(taker.side.Opposite(), s[1].price, s[0].price);
      NothingCrosses(s[1..], taker);
    }
  }

  lemma {:induction false} ReachableIsCrossing(s: seq<Order>, taker: Order)
    requires Sorted(taker.side.Opposite(), s)
    ensures Total(Reachable(s, taker)) == Crossing(s, taker)
  {
    if s == [] || !CanMatchAtPrice(taker, s[0].price) {
      NothingCrosses(s, taker);
    } else {
      SortedTail(taker.side.Opposite(), s);
      ReachableIsCrossing(s[1..], taker);
      assert Reachable(s, taker)[1..] == Reachable(s[1..], taker);
    }
  }

  /**
   * An error-free match trades the smaller of what the taker wants and what it may trade with: a market
   * order with the whole opposite side, a limit order with every order at its own price or better.
   */
  lemma TradesWhatCrosses(p: Precision, ticker: string, opposite: seq<Order>, taker: Order, n: nat)
    requires Positive(opposite) && Sorted(taker.side.Opposite(), opposite) && taker.amount >= 0
    ensures var g := Greedy(p, ticker, opposite, taker, n);
            var crossing := if taker.orderType == Market then Total(opposite) else Crossing(opposite, taker);
            g.ok ==> taker.amount - g.taker.amount == if taker.amount <= crossing then taker.amount else crossing
  {
    hide Greedy;
    TakesAllItCan(p, ticker, opposite, taker, n);
    ReachableIsCrossing(opposite, taker);
    if taker.orderType == Market {
      MarketCrossesAll(opposite, taker);
    }
  }

  /** The executions of one match are numbered from n and carry the taker's identity and time. */
  ghost predicate Numbered(ticker: string, taker: Order, n: nat, logs: seq<MatchLog>) {
    forall i :: 0 <= i < |logs| ==>
      && logs[i].executionID == ExecutionID(ticker, taker.id, taker.timestamp, n + i)
      && logs[i].ticker == ticker && logs[i].takerOrderID == taker.id && logs[i].matchedAt == taker.timestamp
  }

  lemma NumberedCons(ticker: string, taker: Order, n: nat, log: MatchLog, logs: seq<MatchLog>)
    requires Numbered(ticker, taker, n, [log]) && Numbered(ticker, taker, n + 1, logs)
    ensures Numbered(ticker, taker, n, [log] + logs)
  {
    var all := [log] + logs;
    forall i | 0 <= i < |all| ensures all[i] == if i == 0 then [log][0] else logs[i - 1] {
    }
  }

  lemma {:induction false} LogsNumbered(p: Precision, ticker: string, opposite: seq<Order>, taker: Order, n: nat)
    ensures Numbered(ticker, taker, n, Greedy(p, ticker, opposite, taker, n).logs)
    decreases |opposite|, if taker.amount > 0 then taker.amount else 0
  {
    if Steps(p, opposite, taker) {
      var t := Traded(opposite, taker);
      var rest := Greedy(p, ticker, Eaten(opposite, t), Remaining(opposite, taker), n + 1).logs;
      LogsNumbered(p, ticker, Eaten(opposite, t), Remaining(opposite, taker), n + 1);
      NumberedCons(ticker, taker, n, Greedy(p, ticker, opposite, taker, n).logs[0], rest);
    }
  }

  /** The side left over is still a valid side, with no identity it did not have. */
  lemma {:induction false} StaysWellFormed(p: Precision, ticker: string, side: Side, opposite: seq<Order>, taker: Order, n: nat)
    requires WellFormed(side, opposite)
    ensures var g := Greedy(p, ticker, opposite, taker, n);
            WellFormed(side, g.opposite) && Ids(g.opposite) <= Ids(opposite)
    decreases |opposite|, if taker.amount > 0 then taker.amount else 0
  {
    if Steps(p, opposite, taker) {
      var t := Traded(opposite, taker);
      EatenWellFormed(side, opposite, t);
      StaysWellFormed(p, ticker, side, Eaten(opposite, t), Remaining(opposite, taker), n + 1);
    }
  }

  lemma EatenWellFormed(side: Side, s: seq<Order>, t: int)
    requires WellFormed(side, s) && s != [] && 0 <= t
    ensures WellFormed(side, Eaten(s, t)) && Ids(Eaten(s, t)) <= Ids(s)
  {
    WellFormedTail(side, s);
    DistinctTail(s);
    if s[0].amount > t {
      IdsCons(Eaten(s, t));
      assert Eaten(s, t)[1..] == s[1..];
    }
  }

  // ----- rounding -----

  /** The exact quote value of the executions, in units of 1/Divisor of a quote atom. */
  function ExactQuote(p: Precision, logs: seq<MatchLog>): int {
    if logs == [] then 0 else logs[0].price * logs[0].amount * Pow10(p.quoteScale) + ExactQuote(p, logs[1..])
  }

  function QuoteTotal(logs: seq<MatchLog>): int {
    if logs == [] then 0 else logs[0].quoteAmount + QuoteTotal(logs[1..])
  }

  /** A single quote fails exactly when an input is negative or the rounded-down value exceeds int64. */
  lemma QuoteFailsIff(p: Precision, price: int, quantity: int)
    ensures QuoteAmount(p, price, quantity).Err? <==>
              price < 0 || quantity < 0 || price * quantity * Pow10(p.quoteScale) >= (MAX_INT64 + 1) * Divisor(p)
  {
    if price >= 0 && quantity >= 0 {
      var x, d := price * quantity * Pow10(p.quoteScale), Divisor(p);
      assert x >= 0;
      DivBounds(x, d);
      if x / d <= MAX_INT64 {
        MulMono(x / d, MAX_INT64, d);
      } else {
        MulMono(MAX_INT64 + 1, x / d, d);
      }
    }
  }

  lemma DivBounds(x: int, d: int)
    requires x >= 0 && d > 0
    ensures 0 <= x / d && x / d * d <= x < x / d * d + d
  {
  }

  lemma MulMono(a: int, b: int, d: int)
    requires a <= b && d > 0
    ensures a * d <= b * d
  {
  }

  /** Rounding down each of n executions loses less than n quote atoms in total, and never gains. */
  lemma {:induction false} RoundingBound(p: Precision, ticker: string, opposite: seq<Order>, taker: Order, n: nat)
    requires forall i :: 0 <= i < |opposite| ==> opposite[i].price >= 0 && opposite[i].amount > 0
    ensures var logs := Greedy(p, ticker, opposite, taker, n).logs;
            var lost := ExactQuote(p, logs) - QuoteTotal(logs) * Divisor(p);
            0 <= lost && (if logs == [] then lost == 0 else lost < |logs| * Divisor(p))
    decreases |opposite|, if taker.amount > 0 then taker.amount else 0
  {
    if Steps(p, opposite, taker) {
      var t := Traded(opposite, taker);
      var g := Greedy(p, ticker, opposite, taker, n);
      var rest := Greedy(p, ticker, Eaten(opposite, t), Remaining(opposite, taker), n + 1);
      RoundingBound(p, ticker, Eaten(opposite, t), Remaining(opposite, taker), n + 1);
      assert g.logs == [g.logs[0]] + rest.logs && g.logs[1..] == rest.logs;
      LossStep(p, g.logs[0], rest.logs);
    }
  }

  lemma LossStep(p: Precision, log: MatchLog, logs: seq<MatchLog>)
    requires log.price >= 0 && log.amount >= 0
    requires log.quoteAmount == log.price * log.amount * Pow10(p.quoteScale) / Divisor(p)
    ensures var all := [log] + logs;
            var lost := ExactQuote(p, logs) - QuoteTotal(logs) * Divisor(p);
            var lostAll := ExactQuote(p, all) - QuoteTotal(all) * Divisor(p);
            lost <= lostAll < lost + Divisor(p) && |all| * Divisor(p) == |logs| * Divisor(p) + Divisor(p)
  {
    var all := [log] + logs;
    assert all[1..] == logs;
    var x, d := log.price * log.amount * Pow10(p.quoteScale), Divisor(p);
    assert x >= 0;
    hide Divisor, Pow10;
    DivBounds(x, d);
    AddLoss(log.quoteAmount, QuoteTotal(logs), |logs|, d);
  }

  lemma AddLoss(q: int, total: int, n: nat, d: int)
    ensures (q + total) * d == q * d + total * d && (n + 1) * d == n * d + d
  {
  }
}
