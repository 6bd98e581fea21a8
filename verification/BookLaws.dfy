/** The invariant of every reachable book: two valid sides, limit orders only, never crossed. */
module BookLaws {
  import opened Models
  import opened Numeric
  import opened Texts
  import opened FlatBook
  import opened Levels
  import opened Matching
  import opened MatchingLaws
  import opened Journal
  import opened OrderEvents
  import opened Execution

  /** What every order on the book, and every accepted limit order, satisfies. */
  predicate SoundLimit(o: Order) {
    o.orderType == Limit && o.price > 0 && !IsBlank(o.userID) && !IsBlankID(o.id)
  }

  ghost predicate SoundSide(s: seq<Order>) {
    forall i :: 0 <= i < |s| ==> SoundLimit(s[i])
  }

  /** The best bid is strictly below the best ask. */
  predicate Uncrossed(b: Book) {
    b.bids == [] || b.asks == [] || b.bids[0].price < b.asks[0].price
  }

  ghost predicate SoundBook(b: Book) {
    ValidBook(b) && SoundSide(b.bids) && SoundSide(b.asks) && Uncrossed(b)
  }

  /** An order as it may enter matching. */
  predicate Incoming(o: Order) {
    && 0 < o.amount <= MAX_INT64 && !IsBlank(o.userID) && !IsBlankID(o.id)
    && if o.orderType == Limit then o.price > 0 else o.price == 0
  }

  ghost predicate Absent(b: Book, id: OrderID) {
    id !in Ids(b.bids) && id !in Ids(b.asks)
  }

  lemma {:induction false} MatchKeepsSound(p: Precision, ticker: string, side: Side, opposite: seq<Order>, taker: Order, n: nat)
    requires SoundSide(opposite) && WellFormed(side, opposite)
    ensures var g := Greedy(p, ticker, opposite, taker, n);
            && SoundSide(g.opposite)
            && (g.opposite != [] ==> opposite != [] && !Better(side, g.opposite[0].price, opposite[0].price))
    decreases |opposite|, if taker.amount > 0 then taker.amount else 0
  {
    if Steps(p, opposite, taker) {
      var t := Traded(opposite, taker);
      EatenWellFormed(side, opposite, t);
      MatchKeepsSound(p, ticker, side, Eaten(opposite, t), Remaining(opposite, taker), n + 1);
    }
  }

  /** Matching alone never crosses a book that was not crossed. */
  lemma MatchedUncrossed(b: Book, side: Side, opposite: seq<Order>)
    requires Uncrossed(b)
    requires opposite != [] ==> b.On(side) != [] && !Better(side, opposite[0].price, b.On(side)[0].price)
    ensures Uncrossed(b.With(side, opposite))
  {
  }

  /** A residual that cannot trade with the best opposite order rests without crossing. */
  lemma RestUncrossed(b: Book, o: Order)
    requires Uncrossed(b) && o.orderType == Limit && o.amount > 0 && Stops(b.On(o.side.Opposite()), o)
    ensures Uncrossed(Rest(b, o))
  {
    var s := b.On(o.side);
    assert Insert(o.side, s, o)[0] == o || (s != [] && Insert(o.side, s, o)[0] == s[0]);
  }

  lemma RestSound(b: Book, o: Order)
    requires SoundBook(b) && Restable(o.side, o) && SoundLimit(o) && Absent(b, o.id)
    requires Stops(b.On(o.side.Opposite()), o)
    ensures SoundBook(Rest(b, o))
  {
    InsertWellFormed(o.side, b.On(o.side), o);
    RestUncrossed(b, o);
    InsertSound(o.side, b.On(o.side), o);
  }

  lemma {:induction false} InsertSound(side: Side, s: seq<Order>, o: Order)
    requires SoundSide(s) && SoundLimit(o)
    ensures SoundSide(Insert(side, s, o))
  {
    if s != [] && !Better(side, o.price, s[0].price) {
      InsertSound(side, s[1..], o);
    }
  }

  lemma MatchedBook(m: Market, b: Book, order: Order)
    requires SoundBook(b) && Incoming(order) && Absent(b, order.id)
    ensures var side := order.side.Opposite();
            var g := Greedy(m.precision, m.ticker, b.On(side), order, 0);
            var matched := b.With(side, g.opposite);
            && SoundBook(matched) && Absent(matched, order.id)
            && matched.On(side) == g.opposite
            && 0 <= g.taker.amount <= order.amount && g.taker == order.(amount := g.taker.amount)
            && (g.ok ==> Stops(g.opposite, g.taker))
  {
    var side := order.side.Opposite();
    var s := b.On(side);
    var g := Greedy(m.precision, m.ticker, s, order, 0);
    StaysWellFormed(m.precision, m.ticker, side, s, order, 0);
    MatchKeepsSound(m.precision, m.ticker, side, s, order, 0);
    MatchedUncrossed(b, side, g.opposite);
    EndsOkIffStops(m.precision, m.ticker, s, order, 0);
    TakerShrinks(m.precision, m.ticker, s, order, 0);
  }

  lemma {:induction false} TakerShrinks(p: Precision, ticker: string, opposite: seq<Order>, taker: Order, n: nat)
    requires Positive(opposite) && taker.amount >= 0
    ensures 0 <= Greedy(p, ticker, opposite, taker, n).taker.amount <= taker.amount
    decreases |opposite|, taker.amount
  {
    if Steps(p, opposite, taker) {
      TakerShrinks(p, ticker, Eaten(opposite, Traded(opposite, taker)), Remaining(opposite, taker), n + 1);
    }
  }

  /** Matching an order and settling its residual keeps the book sound, also when matching breaks off. */
  lemma PlanMatchSound(m: Market, b: Book, c: Command, order: Order, isNew: bool, first: seq<Change>)
    requires SoundBook(b) && Incoming(order) && Absent(b, order.id) && (!isNew ==> order.orderType == Limit)
    ensures var plan := PlanMatch(m, b, c, order, isNew, first);
            match plan
            case Refused => true
            case Broken(book) => SoundBook(book)
            case Planned(matched, _, final, _, _) => SoundBook(matched) && SoundBook(final)
  {
    MatchedBook(m, b, order);
    var g := Greedy(m.precision, m.ticker, b.On(order.side.Opposite()), order, 0);
    var matched := b.With(order.side.Opposite(), g.opposite);
    if g.ok && g.taker.amount > 0 && order.orderType == Limit {
      hide Greedy, SoundBook, Stops;
      RestSound(matched, g.taker);
    }
  }

  // ----- withdrawing, amending, cancelling -----

  lemma {:induction false} RemoveSound(side: Side, s: seq<Order>, id: OrderID)
    requires SoundSide(s) && Sorted(side, s)
    ensures SoundSide(Remove(s, id))
    ensures Remove(s, id) != [] ==> s != [] && !Better(side, Remove(s, id)[0].price, s[0].price)
  {
    if s != [] && s[0].id != id {
      SortedTail(side, s);
      RemoveSound(side, s[1..], id);
    }
  }

  lemma WithdrawSound(b: Book, o: Order)
    requires SoundBook(b) && Lookup(b, o.id) == Some(o)
    ensures SoundBook(Withdraw(b, o)) && Absent(Withdraw(b, o), o.id)
    ensures SoundLimit(o) && Restable(o.side, o) && Stops(b.On(o.side.Opposite()), o)
    ensures Withdraw(b, o).On(o.side.Opposite()) == b.On(o.side.Opposite())
  {
    LookupFinds(b, o.id);
    var i := FindIndex(b.On(o.side), o.id);
    RemoveWellFormed(o.side, b.On(o.side), o.id);
    RemoveSound(o.side, b.On(o.side), o.id);
  }

  lemma RevalueSound(b: Book, o: Order, after: Order)
    requires SoundBook(b) && Lookup(b, o.id) == Some(o)
    requires after == o.(amount := after.amount, timestamp := after.timestamp) && 0 < after.amount <= MAX_INT64
    ensures SoundBook(Revalue(b, after))
    ensures Ids(Revalue(b, after).bids) == Ids(b.bids) && Ids(Revalue(b, after).asks) == Ids(b.asks)
  {
    hide Sorted, Distinct, Replace, Find, Ids, SoundSide, IsBlank, IsBlankID;
    LookupFinds(b, o.id);
    WithdrawSound(b, o);
    var s := b.On(o.side);
    var i := FindIndex(s, o.id);
    ReplaceWellFormed(o.side, s, i, after);
    ReplaceSound(s, i, after);
  }

  lemma ReplaceSound(s: seq<Order>, i: nat, after: Order)
    requires SoundSide(s) && Distinct(s) && i < |s| && s[i].id == after.id && SoundLimit(after) && s[i].price == after.price
    ensures SoundSide(Replace(s, after)) && |Replace(s, after)| == |s| && Replace(s, after)[0].price == s[0].price
  {
    ReplaceAt(s, i, after);
  }

  lemma EditSound(b: Book, req: EditOrderRequest, recordedAt: Time)
    requires SoundBook(b) && ValidAmend(req)
    ensures match EditOf(b, req, recordedAt)
            case None => true
            case Some(e) =>
              && Lookup(b, req.orderID) == Some(e.before) && e.before.id == req.orderID == e.after.id
              && SoundLimit(e.before) && Incoming(e.after) && e.after.side == e.before.side && e.after.orderType == Limit
              && e.before.amount > 0
              && SoundBook(ApplyEdit(b, e))
              && (e.requiresRematch ==> Absent(ApplyEdit(b, e), e.after.id))
  {
    var edit := EditOf(b, req, recordedAt);
    if edit.Some? {
      var e := edit.value;
      LookupFinds(b, req.orderID);
      WithdrawSound(b, e.before);
      hide SoundBook, ValidBook, WellFormed;
      if !e.requiresRematch {
        if e.after.amount > e.before.amount {
          RestSound(Withdraw(b, e.before), e.after);
        } else {
          RevalueSound(b, e.before, e.after);
        }
      }
    }
  }

  lemma OppositeKept(b: Book, req: EditOrderRequest, recordedAt: Time)
    requires EditOf(b, req, recordedAt).Some? && EditOf(b, req, recordedAt).value.requiresRematch
    ensures var e := EditOf(b, req, recordedAt).value;
            ApplyEdit(b, e).On(e.after.side.Opposite()) == b.On(e.after.side.Opposite()) && e.after.timestamp == recordedAt
  {
  }

  /** The order a create command makes may enter matching. */
  lemma CreatedIncoming(c: Command)
    requires Validate(c) && c.kind == CreateCommand
    ensures Incoming(CreateOrderAt(c.create.value, c.recordedAt))
  {
  }

  /** The identity a command makes its order known by, when it is a create. */
  function CreatedID(c: Command): Option<OrderID> {
    if c.kind == CreateCommand && c.create.Some? then Some(GenerateOrderID(c.create.value)) else None
  }

  /**
   * Every command keeps the book sound, at every exit: after matching, after the residual rests, and
   * when matching breaks off. A create must bring an identity that is not on the book.
   */
  lemma PlanSound(m: Market, b: Book, c: Command)
    requires SoundBook(b) && (CreatedID(c).Some? ==> Absent(b, CreatedID(c).value))
    ensures match PlanCommand(m, b, c)
            case Refused => true
            case Broken(book) => SoundBook(book)
            case Planned(matched, _, final, _, _) => SoundBook(matched) && SoundBook(final)
  {
    if Accepts(m, c) {
      match c.kind
      case CreateCommand =>
        CreatedIncoming(c);
        hide SoundBook, PlanMatch;
        PlanMatchSound(m, b, c, CreateOrderAt(c.create.value, c.recordedAt), true, []);
      case AmendCommand =>
        EditSound(b, c.amend.value, c.recordedAt);
        hide SoundBook, PlanMatch, ApplyEdit, Absent;
        var edit := EditOf(b, c.amend.value, c.recordedAt);
        if edit.Some? && edit.value.requiresRematch {
          var e := edit.value;
          PlanMatchSound(m, ApplyEdit(b, e), c, e.after, false, [AmendedChange(e.before, e.after)]);
        }
      case CancelCommand =>
        LookupFinds(b, c.cancel.value.orderID);
        var o := Lookup(b, c.cancel.value.orderID);
        if o.Some? {
          WithdrawSound(b, o.value);
        }
    }
  }

  lemma LookupSound(b: Book, id: OrderID)
    requires SoundBook(b)
    ensures Lookup(b, id).Some? ==>
              var o := Lookup(b, id).value;
              o.id == id && o.amount > 0 && SoundLimit(o) && Lookup(b, o.id) == Some(o)
  {
    LookupFinds(b, id);
    if Lookup(b, id).Some? {
      WithdrawSound(b, Lookup(b, id).value);
    }
  }
}
