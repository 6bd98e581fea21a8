/**
 * Conservation over whole runs: for every order identity, what was created plus what amendments
 * added equals what was executed plus what was cancelled plus what still rests.
 */
module Conservation {
  import opened Models
  import opened Numeric
  import opened FlatBook
  import opened Levels
  import opened Matching
  import opened MatchingLaws
  import opened Journal
  import opened OrderEvents
  import opened Execution
  import opened BookLaws
  import opened Lifecycle
  import opened Stores
  import opened Runs

  function AmountOf(s: seq<Order>, id: OrderID): int {
    if s == [] then 0 else (if s[0].id == id then s[0].amount else 0) + AmountOf(s[1..], id)
  }

  function RestingAmount(b: Book, id: OrderID): int {
    AmountOf(b.bids, id) + AmountOf(b.asks, id)
  }

  /** Lots of an order executed, as maker or as taker, according to the execution log alone. */
  function Executed(logs: seq<MatchLog>, id: OrderID): int {
    if logs == [] then 0
    else (if logs[0].makerOrderID == id then logs[0].amount else 0)
         + (if logs[0].takerOrderID == id then logs[0].amount else 0) + Executed(logs[1..], id)
  }

  function CanceledBy(changes: seq<Change>, id: OrderID): int {
    if changes == [] then 0
    else (if changes[0].order.id == id then changes[0].canceledAmount else 0) + CanceledBy(changes[1..], id)
  }

  /** What amendments added to an order, less what they took away. */
  function AmendedBy(changes: seq<Change>, id: OrderID): int {
    if changes == [] then 0
    else (if changes[0].order.id == id && changes[0].kind == Amended
          then changes[0].remainingAmount - changes[0].previousAmount else 0)
         + AmendedBy(changes[1..], id)
  }

  function CreatedBy(c: Command, id: OrderID): int {
    if CreatedID(c) == Some(id) then c.create.value.amount else 0
  }

  // ----- concatenation -----

  lemma ExecutedConcat(a: seq<MatchLog>, b: seq<MatchLog>, id: OrderID)
    ensures Executed(a + b, id) == Executed(a, id) + Executed(b, id)
  {
    if a == [] {
      assert a + b == b;
    } else {
      assert (a + b)[1..] == a[1..] + b;
    }
  }

  lemma ChangesConcat(a: seq<Change>, b: seq<Change>, id: OrderID)
    ensures CanceledBy(a + b, id) == CanceledBy(a, id) + CanceledBy(b, id)
    ensures AmendedBy(a + b, id) == AmendedBy(a, id) + AmendedBy(b, id)
  {
    if a == [] {
      assert a + b == b;
    } else {
      assert (a + b)[1..] == a[1..] + b;
    }
  }

  // ----- one side -----

  lemma AmountInsert(side: Side, s: seq<Order>, o: Order, id: OrderID)
    ensures AmountOf(Insert(side, s, o), id) == AmountOf(s, id) + (if o.id == id then o.amount else 0)
  {
    if s == [] || Better(side, o.price, s[0].price) {
      assert ([o] + s)[1..] == s;
    } else {
      assert Insert(side, s, o)[1..] == Insert(side, s[1..], o);
    }
  }

  lemma AmountRemove(s: seq<Order>, o: Order, id: OrderID)
    requires Find(s, o.id) == Some(o)
    ensures AmountOf(Remove(s, o.id), id) == AmountOf(s, id) - (if o.id == id then o.amount else 0)
  {
    if s[0].id != o.id {
      assert Remove(s, o.id)[1..] == Remove(s[1..], o.id);
    }
  }

  lemma AmountReplace(s: seq<Order>, o: Order, after: Order, id: OrderID)
    requires Find(s, o.id) == Some(o) && after.id == o.id
    ensures AmountOf(Replace(s, after), id) == AmountOf(s, id) + (if o.id == id then after.amount - o.amount else 0)
  {
    if s[0].id == o.id {
      assert Replace(s, after)[1..] == s[1..];
    } else {
      assert Replace(s, after)[1..] == Replace(s[1..], after);
    }
  }

  /** A match takes from each maker exactly what the log says it executed, and gives the taker the sum. */
  lemma {:induction false} MatchBalance(p: Precision, ticker: string, opposite: seq<Order>, taker: Order, n: nat, id: OrderID)
    ensures var g := Greedy(p, ticker, opposite, taker, n);
            && CanceledBy(MakerChanges(g.fills), id) == 0 && AmendedBy(MakerChanges(g.fills), id) == 0
            && Executed(g.logs, id) == AmountOf(opposite, id) - AmountOf(g.opposite, id)
                                       + (if taker.id == id then taker.amount - g.taker.amount else 0)
    decreases |opposite|, if taker.amount > 0 then taker.amount else 0
  {
    hide Greedy;
    StepUnfolds(p, ticker, opposite, taker, n);
    if Steps(p, opposite, taker) {
      var t := Traded(opposite, taker);
      MatchBalance(p, ticker, Eaten(opposite, t), Remaining(opposite, taker), n + 1, id);
      var g := Greedy(p, ticker, opposite, taker, n);
      assert g.fills[1..] == Greedy(p, ticker, Eaten(opposite, t), Remaining(opposite, taker), n + 1).fills;
      assert MakerChanges(g.fills)[1..] == MakerChanges(g.fills[1..]);
      if opposite[0].amount > t {
        assert Eaten(opposite, t)[1..] == opposite[1..];
      }
    }
  }

  /** The balance of one command for one identity. */
  ghost predicate Balanced(b: Book, c: Command, plan: Plan, id: OrderID)
    requires plan.Planned?
  {
    RestingAmount(b, id) + CreatedBy(c, id) + AmendedBy(plan.changes, id)
      == RestingAmount(plan.final, id) + Executed(plan.logs, id) + CanceledBy(plan.changes, id)
  }

  lemma TakerBalance(order: Order, remaining: int, isNew: bool, id: OrderID)
    requires 0 <= remaining <= order.amount
    ensures var changes := TakerChanges(order, order.amount - remaining, remaining);
            CanceledBy(changes, id) == 0 && AmendedBy(changes, id) == 0
    ensures var changes := if isNew then RemainderChanges(order, remaining) else [];
            && AmendedBy(changes, id) == 0
            && CanceledBy(changes, id) ==
               if isNew && order.id == id && order.orderType == OrderType.Market then remaining else 0
  {
  }

  lemma ResultBalance(b: Book, side: Side, opposite: seq<Order>, taker: Order, id: OrderID)
    requires taker.side == side.Opposite()
    ensures RestingAmount(b.With(side, opposite), id) == RestingAmount(b, id) - AmountOf(b.On(side), id) + AmountOf(opposite, id)
    ensures RestingAmount(Rest(b.With(side, opposite), taker), id)
              == RestingAmount(b.With(side, opposite), id) + (if taker.id == id then taker.amount else 0)
  {
    AmountInsert(taker.side, b.On(taker.side), taker, id);
  }

  /** Matching an order that is off the book settles its whole amount. */
  lemma PlanMatchBalance(m: Market, b: Book, c: Command, order: Order, isNew: bool, first: seq<Change>, id: OrderID)
    requires SoundBook(b) && Incoming(order) && Absent(b, order.id)
    ensures var plan := PlanMatch(m, b, c, order, isNew, first);
            plan.Planned? ==>
              RestingAmount(b, id) + (if order.id == id then order.amount else 0)
                == RestingAmount(plan.final, id) + Executed(plan.logs, id) + CanceledBy(plan.changes, id) - CanceledBy(first, id)
              && AmendedBy(plan.changes, id) == AmendedBy(first, id)
  {
    hide SoundBook, Greedy, TakerChanges, RemainderChanges, Absent, RestingAmount, AmountOf, CanceledBy, AmendedBy, Rest, Executed;
    var side := order.side.Opposite();
    var g := Greedy(m.precision, m.ticker, b.On(side), order, 0);
    MatchedBook(m, b, order);
    MatchBalance(m.precision, m.ticker, b.On(side), order, 0, id);
    TakerBalance(order, g.taker.amount, isNew, id);
    ResultBalance(b, side, g.opposite, g.taker, id);
    var a, t := MakerChanges(g.fills), TakerChanges(order, order.amount - g.taker.amount, g.taker.amount);
    var r := if isNew then RemainderChanges(order, g.taker.amount) else [];
    ChangesConcat(first, a, id);
    ChangesConcat(first + a, t, id);
    ChangesConcat(first + a + t, r, id);
  }

  lemma EditBalance(b: Book, req: EditOrderRequest, recordedAt: Time, id: OrderID)
    requires SoundBook(b) && ValidAmend(req) && EditOf(b, req, recordedAt).Some?
    ensures var e := EditOf(b, req, recordedAt).value;
            && RestingAmount(ApplyEdit(b, e), id) == RestingAmount(b, id)
                 + (if e.before.id == id then (if e.requiresRematch then 0 else e.after.amount) - e.before.amount else 0)
            && AmendedBy([AmendedChange(e.before, e.after)], id) == (if e.before.id == id then e.after.amount - e.before.amount else 0)
            && CanceledBy([AmendedChange(e.before, e.after)], id) == 0
  {
    var e := EditOf(b, req, recordedAt).value;
    LookupFinds(b, req.orderID);
    var s := b.On(e.before.side);
    AmountRemove(s, e.before, id);
    AmountInsert(e.after.side, Remove(s, e.before.id), e.after, id);
    AmountReplace(s, e.before, e.after, id);
  }

  /** Every command balances for every identity. */
  lemma PlanBalance(m: Market, b: Book, c: Command, id: OrderID)
    requires SoundBook(b) && (CreatedID(c).Some? ==> Absent(b, CreatedID(c).value))
    requires PlanCommand(m, b, c).Planned?
    ensures Balanced(b, c, PlanCommand(m, b, c), id)
  {
    hide SoundBook, PlanMatch, ApplyEdit, Absent, RestingAmount;
    match c.kind
    case CreateCommand =>
      CreatedIncoming(c);
      PlanMatchBalance(m, b, c, CreateOrderAt(c.create.value, c.recordedAt), true, [], id);
    case AmendCommand =>
      var edit := EditOf(b, c.amend.value, c.recordedAt);
      if edit.Some? {
        var e := edit.value;
        EditSound(b, c.amend.value, c.recordedAt);
        EditBalance(b, c.amend.value, c.recordedAt, id);
        if e.requiresRematch {
          PlanMatchBalance(m, ApplyEdit(b, e), c, e.after, false, [AmendedChange(e.before, e.after)], id);
        }
      }
    case CancelCommand =>
      CancelBalance(b, c.cancel.value.orderID, id);
  }

  /** The requested identity is on the book at no price but the one it is to have. */
  ghost predicate RestsOnlyAt(b: Book, id: OrderID, price: int) {
    forall o :: (o in b.bids || o in b.asks) && o.id == id ==> o.price == price
  }

  lemma AbsentRestsAnywhere(b: Book, id: OrderID, price: int)
    requires Absent(b, id)
    ensures RestsOnlyAt(b, id, price)
  {
    HasIds(b.bids);
    HasIds(b.asks);
  }

  lemma InsertElems(side: Side, s: seq<Order>, o: Order)
    ensures forall x :: x in Insert(side, s, o) <==> x == o || x in s
  {
    if s != [] && !Better(side, o.price, s[0].price) {
      InsertElems(side, s[1..], o);
      assert forall x :: x in s <==> x == s[0] || x in s[1..];
    }
  }

  lemma RestRestsAt(b: Book, o: Order)
    requires Absent(b, o.id)
    ensures RestsOnlyAt(Rest(b, o), o.id, o.price)
  {
    AbsentRestsAnywhere(b, o.id, o.price);
    InsertElems(o.side, b.On(o.side), o);
  }

  lemma RevalueRestsAt(b: Book, before: Order, after: Order)
    requires SoundBook(b) && Lookup(b, before.id) == Some(before) && after.id == before.id && after.side == before.side
    ensures RestsOnlyAt(Revalue(b, after), after.id, after.price)
  {
    LookupFinds(b, before.id);
    var s := b.On(before.side);
    var k := FindIndex(s, before.id);
    ReplaceAt(s, k, after);
    HasIds(b.On(before.side.Opposite()));
    assert forall i :: 0 <= i < |s| && s[i].id == s[k].id ==> i == k;
  }

  lemma RematchRestsAt(m: Market, b: Book, c: Command, order: Order, first: seq<Change>)
    requires SoundBook(b) && Incoming(order) && Absent(b, order.id)
    ensures var plan := PlanMatch(m, b, c, order, false, first);
            plan.Planned? ==> RestsOnlyAt(plan.final, order.id, order.price)
  {
    hide Greedy, Rest, Absent, SoundBook;
    MatchedBook(m, b, order);
    var side := order.side.Opposite();
    var g := Greedy(m.precision, m.ticker, b.On(side), order, 0);
    var matched := b.With(side, g.opposite);
    AbsentRestsAnywhere(matched, order.id, order.price);
    RestRestsAt(matched, g.taker);
  }

  lemma EditRestsAt(b: Book, req: EditOrderRequest, recordedAt: Time)
    requires SoundBook(b) && ValidAmend(req) && EditOf(b, req, recordedAt).Some?
    ensures var e := EditOf(b, req, recordedAt).value;
            !e.requiresRematch ==> RestsOnlyAt(ApplyEdit(b, e), e.after.id, e.after.price)
  {
    hide Rest, Withdraw, Revalue, SoundBook, RestsOnlyAt, Lookup;
    var e := EditOf(b, req, recordedAt).value;
    EditSound(b, req, recordedAt);
    WithdrawSound(b, e.before);
    if !e.requiresRematch {
      if e.after.amount > e.before.amount {
        RestRestsAt(Withdraw(b, e.before), e.after);
      } else {
        RevalueRestsAt(b, e.before, e.after);
      }
    }
  }

  /**
   * An amendment that takes place gives the order exactly what was asked for: what is executed and what
   * rests of it add up to the requested amount, and what rests of it rests at the requested price.
   */
  lemma AmendTakesEffect(m: Market, b: Book, c: Command)
    requires SoundBook(b) && c.kind == AmendCommand && PlanCommand(m, b, c).Planned?
    requires EditOf(b, c.amend.value, c.recordedAt).Some?
    ensures var plan, req := PlanCommand(m, b, c), c.amend.value;
            var before := EditOf(b, req, c.recordedAt).value.before;
            && Executed(plan.logs, req.orderID) + RestingAmount(plan.final, req.orderID) == RequestedAmount(req, before)
            && RestsOnlyAt(plan.final, req.orderID, req.price)
  {
    hide SoundBook, PlanMatch, ApplyEdit, Absent, RestingAmount, Executed, CanceledBy, AmendedBy, Lookup;
    var req := c.amend.value;
    var e := EditOf(b, req, c.recordedAt).value;
    SoundIsValid(b);
    EditIs(b, req, c.recordedAt);
    EditSound(b, req, c.recordedAt);
    EditBalance(b, req, c.recordedAt, req.orderID);
    AmountWhenResting(b, e.before);
    NothingExecuted(req.orderID);
    if e.requiresRematch {
      PlanMatchBalance(m, ApplyEdit(b, e), c, e.after, false, [AmendedChange(e.before, e.after)], req.orderID);
      NoneCanceled(m, ApplyEdit(b, e), c, e.after, [AmendedChange(e.before, e.after)], req.orderID);
      RematchRestsAt(m, ApplyEdit(b, e), c, e.after, [AmendedChange(e.before, e.after)]);
    } else {
      EditRestsAt(b, req, c.recordedAt);
    }
  }

  /**
   * A create gives its order exactly what was asked for: executed, resting and cancelled add up to the
   * requested amount; a limit order has nothing cancelled and rests at its price, a market order never rests.
   */
  lemma CreateTakesEffect(m: Market, b: Book, c: Command)
    requires SoundBook(b) && c.kind == CreateCommand && PlanCommand(m, b, c).Planned? && Absent(b, CreatedID(c).value)
    ensures var plan, req, id := PlanCommand(m, b, c), c.create.value, CreatedID(c).value;
            && Executed(plan.logs, id) + RestingAmount(plan.final, id) + CanceledBy(plan.changes, id) == req.amount
            && (match req.orderType
                case Limit => CanceledBy(plan.changes, id) == 0 && RestsOnlyAt(plan.final, id, req.price)
                case Market => RestingAmount(plan.final, id) == 0)
  {
    hide SoundBook, PlanMatch, Absent, RestingAmount, Executed, CanceledBy, AmendedBy, RestsOnlyAt;
    var order := CreateOrderAt(c.create.value, c.recordedAt);
    CreatedIncoming(c);
    AbsentAmount(b, order.id);
    PlanMatchBalance(m, b, c, order, true, [], order.id);
    NothingCanceled(order.id);
    CreateSettles(m, b, c, order);
  }

  lemma NothingCanceled(id: OrderID)
    ensures CanceledBy([], id) == 0
  {
  }

  lemma AbsentAmount(b: Book, id: OrderID)
    requires Absent(b, id)
    ensures RestingAmount(b, id) == 0
  {
    AmountAbsent(b.bids, id);
    AmountAbsent(b.asks, id);
  }

  lemma CreateSettles(m: Market, b: Book, c: Command, order: Order)
    requires SoundBook(b) && Incoming(order) && Absent(b, order.id)
    ensures var plan := PlanMatch(m, b, c, order, true, []);
            plan.Planned? ==>
              && (order.orderType == Limit ==> CanceledBy(plan.changes, order.id) == 0 && RestsOnlyAt(plan.final, order.id, order.price))
              && (order.orderType == OrderType.Market ==> RestingAmount(plan.final, order.id) == 0)
  {
    hide SoundBook, Greedy, TakerChanges, RemainderChanges, Absent, CanceledBy, AmendedBy, Rest, MakerChanges, RestingAmount, RestsOnlyAt;
    var side := order.side.Opposite();
    var g := Greedy(m.precision, m.ticker, b.On(side), order, 0);
    var matched := b.With(side, g.opposite);
    MatchedBook(m, b, order);
    AbsentAmount(matched, order.id);
    AbsentRestsAnywhere(matched, order.id, order.price);
    RestRestsAt(matched, g.taker);
    MatchBalance(m.precision, m.ticker, b.On(side), order, 0, order.id);
    TakerBalance(order, g.taker.amount, true, order.id);
    NothingCanceled(order.id);
    var a, t := MakerChanges(g.fills), TakerChanges(order, order.amount - g.taker.amount, g.taker.amount);
    ChangesConcat([], a, order.id);
    ChangesConcat([] + a, t, order.id);
    ChangesConcat([] + a + t, RemainderChanges(order, g.taker.amount), order.id);
  }

  /** A cancellation takes exactly the named order off the book, wherever it was, and executes nothing. */
  lemma CancelTakesEffect(m: Market, b: Book, c: Command)
    requires SoundBook(b) && c.kind == CancelCommand && PlanCommand(m, b, c).Planned?
    ensures var plan, id := PlanCommand(m, b, c), c.cancel.value.orderID;
            && Absent(plan.final, id) && plan.logs == []
            && (forall o: Order :: o.id != id ==> (o in plan.final.bids <==> o in b.bids) && (o in plan.final.asks <==> o in b.asks))
            && CanceledBy(plan.changes, id) == RestingAmount(b, id)
  {
    hide RestingAmount, SoundBook, Lookup, Withdraw;
    var id := c.cancel.value.orderID;
    SoundIsValid(b);
    LookupFinds(b, id);
    CancelBalance(b, id, id);
    if Lookup(b, id).Some? {
      var o := Lookup(b, id).value;
      LookupSound(b, id);
      WithdrawSound(b, o);
      AmountWhenResting(b, o);
      WithdrawElems(b, o);
    } else {
      AbsentAmount(b, id);
    }
  }

  lemma RemoveElems(s: seq<Order>, id: OrderID)
    ensures forall o: Order :: o.id != id ==> (o in Remove(s, id) <==> o in s)
  {
    if s != [] {
      RemoveElems(s[1..], id);
      assert forall o :: o in s <==> o == s[0] || o in s[1..];
    }
  }

  lemma WithdrawElems(b: Book, o: Order)
    ensures var w := Withdraw(b, o);
            forall x: Order :: x.id != o.id ==> (x in w.bids <==> x in b.bids) && (x in w.asks <==> x in b.asks)
  {
    RemoveElems(b.On(o.side), o.id);
  }

  lemma SoundIsValid(b: Book)
    requires SoundBook(b)
    ensures ValidBook(b)
  {
  }

  lemma NothingExecuted(id: OrderID)
    ensures Executed([], id) == 0
  {
  }

  lemma {:induction false} AmountAbsent(s: seq<Order>, id: OrderID)
    requires id !in Ids(s)
    ensures AmountOf(s, id) == 0
  {
    if s != [] {
      IdsCons(s);
      AmountAbsent(s[1..], id);
    }
  }

  lemma {:induction false} AmountPresent(s: seq<Order>, k: nat)
    requires Distinct(s) && k < |s|
    ensures AmountOf(s, s[k].id) == s[k].amount
  {
    DistinctTail(s);
    if k == 0 {
      AmountAbsent(s[1..], s[0].id);
    } else {
      assert s[k].id != s[0].id;
      AmountPresent(s[1..], k - 1);
    }
  }

  lemma AmountWhenResting(b: Book, o: Order)
    requires SoundBook(b) && Lookup(b, o.id) == Some(o)
    ensures RestingAmount(b, o.id) == o.amount
  {
    LookupFinds(b, o.id);
    var s := b.On(o.side);
    var k := FindIndex(s, o.id);
    AmountPresent(s, k);
    AmountAbsent(b.On(o.side.Opposite()), o.id);
  }

  /** A rematch cancels nothing. */
  lemma NoneCanceled(m: Market, b: Book, c: Command, order: Order, first: seq<Change>, id: OrderID)
    requires SoundBook(b) && Incoming(order) && Absent(b, order.id)
    ensures var plan := PlanMatch(m, b, c, order, false, first);
            plan.Planned? ==> CanceledBy(plan.changes, id) == CanceledBy(first, id)
  {
    hide SoundBook, Greedy, TakerChanges, RemainderChanges, Absent, CanceledBy, AmendedBy, Rest, MakerChanges;
    var side := order.side.Opposite();
    var g := Greedy(m.precision, m.ticker, b.On(side), order, 0);
    MatchedBook(m, b, order);
    MatchBalance(m.precision, m.ticker, b.On(side), order, 0, id);
    TakerBalance(order, g.taker.amount, false, id);
    var a, t := MakerChanges(g.fills), TakerChanges(order, order.amount - g.taker.amount, g.taker.amount);
    ChangesConcat(first, a, id);
    ChangesConcat(first + a, t, id);
    ChangesConcat(first + a + t, [], id);
  }

  lemma CancelBalance(b: Book, orderID: OrderID, id: OrderID)
    requires SoundBook(b)
    ensures Lookup(b, orderID).Some? ==>
              var o := Lookup(b, orderID).value;
              RestingAmount(Withdraw(b, o), id) + CanceledBy([CanceledChange(o)], id) == RestingAmount(b, id)
              && AmendedBy([CanceledChange(o)], id) == 0
  {
    LookupFinds(b, orderID);
    if Lookup(b, orderID).Some? {
      var o := Lookup(b, orderID).value;
      AmountRemove(b.On(o.side), o, id);
    }
  }

  // ----- whole runs -----

  function CreatedTotal(cmds: seq<Command>, id: OrderID): int {
    if cmds == [] then 0 else CreatedTotal(cmds[..|cmds| - 1], id) + CreatedBy(cmds[|cmds| - 1], id)
  }

  function CanceledTotal(events: seq<Event>, id: OrderID): int {
    if events == [] then 0 else (if events[0].orderID == id then events[0].canceledAmount else 0) + CanceledTotal(events[1..], id)
  }

  function AmendedTotal(events: seq<Event>, id: OrderID): int {
    if events == [] then 0
    else (if events[0].orderID == id && events[0].kind == Amended then events[0].remainingAmount - events[0].previousAmount else 0)
         + AmendedTotal(events[1..], id)
  }

  lemma EventsConcat(a: seq<Event>, b: seq<Event>, id: OrderID)
    ensures CanceledTotal(a + b, id) == CanceledTotal(a, id) + CanceledTotal(b, id)
    ensures AmendedTotal(a + b, id) == AmendedTotal(a, id) + AmendedTotal(b, id)
  {
    if a == [] {
      assert a + b == b;
    } else {
      assert (a + b)[1..] == a[1..] + b;
    }
  }

  lemma {:induction false} StampedTotals(c: Command, changes: seq<Change>, events: seq<Event>, n: nat, id: OrderID)
    requires |events| == |changes| && forall i :: 0 <= i < |events| ==> events[i] == Stamp(c, changes[i], n + i)
    ensures CanceledTotal(events, id) == CanceledBy(changes, id) && AmendedTotal(events, id) == AmendedBy(changes, id)
    decreases |events|
  {
    if events != [] {
      forall i | 0 <= i < |events| - 1 ensures events[1..][i] == Stamp(c, changes[1..][i], n + 1 + i) {
        assert events[1..][i] == events[i + 1];
      }
      StampedTotals(c, changes[1..], events[1..], n + 1, id);
    }
  }

  lemma AdvanceBalance(m: Market, r: Run, c: Command, id: OrderID)
    requires r.ok && SoundBook(r.book) && (CreatedID(c).Some? ==> Absent(r.book, CreatedID(c).value))
    requires Advance(m, r, c).ok
    ensures var next := Advance(m, r, c);
            && RestingAmount(r.book, id) + CreatedBy(c, id) + AmendedTotal(next.events, id) - AmendedTotal(r.events, id)
               == RestingAmount(next.book, id) + Executed(next.logs, id) - Executed(r.logs, id)
                  + CanceledTotal(next.events, id) - CanceledTotal(r.events, id)
  {
    hide SoundBook, PlanCommand, Absent;
    var plan := PlanCommand(m, r.book, c);
    PlanBalance(m, r.book, c, id);
    ExecutedConcat(r.logs, plan.logs, id);
    EventsConcat(r.events, EventsOf(plan), id);
    StampedTotals(plan.command, plan.changes, EventsOf(plan), 0, id);
  }

  /**
   * Over every error-free run and for every order: created + net amendments
   * == executed (per the execution log) + cancelled (per the event stream) + resting (per the book).
   */
  lemma {:induction false} RunConserves(m: Market, cmds: seq<Command>, id: OrderID)
    requires FreshIDs(cmds) && Replayed(m, cmds).ok
    ensures var r := Replayed(m, cmds);
            CreatedTotal(cmds, id) + AmendedTotal(r.events, id)
              == Executed(r.logs, id) + CanceledTotal(r.events, id) + RestingAmount(r.book, id)
    decreases |cmds|
  {
    if cmds != [] {
      var n := |cmds| - 1;
      var r := Replayed(m, cmds[..n]);
      FreshPrefix(cmds);
      RunConserves(m, cmds[..n], id);
      NewIsAbsent(m, cmds[..n], cmds[n]);
      AdvanceBalance(m, r, cmds[n], id);
    }
  }

  /** A create whose identity is fresh is not on the book the earlier commands left. */
  lemma NewIsAbsent(m: Market, cmds: seq<Command>, c: Command)
    requires FreshIDs(cmds) && CreatedSet(c) !! AllCreated(cmds) && Replayed(m, cmds).ok
    ensures SoundBook(Replayed(m, cmds).book)
    ensures CreatedID(c).Some? ==> Absent(Replayed(m, cmds).book, CreatedID(c).value)
  {
    var lives := EventSourcing(m, cmds);
    if CreatedID(c).Some? {
      UnseenIsAbsent(lives, Replayed(m, cmds).book, CreatedID(c).value);
    }
  }
}
