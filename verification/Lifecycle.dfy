/**
 * Event sourcing: following an order's events one by one, each event must continue where the last
 * one left off, and what is left alive at the end is exactly what rests on the book.
 */
module Lifecycle {
  import opened Models
  import opened Numeric
  import opened Texts
  import opened FlatBook
  import opened Levels
  import opened Matching
  import opened MatchingLaws
  import opened Journal
  import opened OrderEvents
  import opened Execution
  import opened BookLaws

  datatype Life = Live(side: Side, price: int, amount: int) | Closed

  type Lives = map<OrderID, Life>

  /**
   * One event applied to the projection. None when the event does not continue its order's history: it
   * names an order that was never created or is closed, or a side, price or amount that is not the last one.
   */
  function ApplyEvent(lives: Lives, e: Event): Option<Lives> {
    if e.orderID in lives && lives[e.orderID] == Live(e.side, e.previousPrice, e.previousAmount)
    then Some(lives[e.orderID := if e.remainingAmount > 0 then Live(e.side, e.price, e.remainingAmount) else Closed])
    else None
  }

  function Project(lives: Lives, events: seq<Event>): Option<Lives>
    decreases |events|
  {
    if events == [] then Some(lives)
    else match ApplyEvent(lives, events[0])
      case None => None
      case Some(next) => Project(next, events[1..])
  }

  /** The same projection on changes that are not stamped yet. */
  function ApplyChange(lives: Lives, ch: Change): Option<Lives> {
    var id := ch.order.id;
    if id in lives && lives[id] == Live(ch.order.side, ch.previousPrice, ch.previousAmount)
    then Some(lives[id := if ch.remainingAmount > 0 then Live(ch.order.side, ch.price, ch.remainingAmount) else Closed])
    else None
  }

  function Follow(lives: Lives, changes: seq<Change>): Option<Lives>
    decreases |changes|
  {
    if changes == [] then Some(lives)
    else match ApplyChange(lives, changes[0])
      case None => None
      case Some(next) => Follow(next, changes[1..])
  }

  ghost predicate Carries(events: seq<Event>, c: Command, changes: seq<Change>, n: nat) {
    |events| == |changes| && forall i :: 0 <= i < |events| ==> events[i] == Stamp(c, changes[i], n + i)
  }

  lemma {:induction false} ProjectIsFollow(lives: Lives, events: seq<Event>, c: Command, changes: seq<Change>, n: nat)
    requires Carries(events, c, changes, n)
    ensures Project(lives, events) == Follow(lives, changes)
    decreases |events|
  {
    if events != [] {
      assert ApplyEvent(lives, events[0]) == ApplyChange(lives, changes[0]);
      var next := ApplyEvent(lives, events[0]);
      if next.Some? {
        forall i | 0 <= i < |events[1..]| ensures events[1..][i] == Stamp(c, changes[1..][i], n + 1 + i) {
          assert events[1..][i] == events[i + 1];
        }
        ProjectIsFollow(next.value, events[1..], c, changes[1..], n + 1);
      }
    }
  }

  lemma {:induction false} FollowConcat(lives: Lives, a: seq<Change>, b: seq<Change>)
    ensures Follow(lives, a + b) == match Follow(lives, a) case None => None case Some(next) => Follow(next, b)
    decreases |a|
  {
    if a == [] {
      assert a + b == b;
    } else {
      assert (a + b)[1..] == a[1..] + b;
      var next := ApplyChange(lives, a[0]);
      if next.Some? {
        FollowConcat(next.value, a[1..], b);
      }
    }
  }

  lemma {:induction false} ProjectConcat(lives: Lives, a: seq<Event>, b: seq<Event>)
    ensures Project(lives, a + b) == match Project(lives, a) case None => None case Some(next) => Project(next, b)
    decreases |a|
  {
    if a == [] {
      assert a + b == b;
    } else {
      assert (a + b)[1..] == a[1..] + b;
      var next := ApplyEvent(lives, a[0]);
      if next.Some? {
        ProjectConcat(next.value, a[1..], b);
      }
    }
  }

  /** A projection that succeeds is about the orders it starts from and no other. */
  lemma {:induction false} ProjectFrame(lives: Lives, events: seq<Event>, id: OrderID, life: Life)
    requires Project(lives, events).Some? && id !in lives
    ensures Project(lives, events).value.Keys == lives.Keys
    ensures Project(lives[id := life], events) == Some(Project(lives, events).value[id := life])
    decreases |events|
  {
    if events != [] {
      var next := ApplyEvent(lives, events[0]).value;
      ProjectFrame(next, events[1..], id, life);
      assert ApplyEvent(lives[id := life], events[0]).value == next[id := life];
    }
  }

  // ----- the projection mirrors the book -----

  /** Every order of s is alive in the projection with its present price and amount. */
  ghost predicate Shown(lives: Lives, s: seq<Order>) {
    forall i :: 0 <= i < |s| ==> s[i].id in lives && lives[s[i].id] == Live(s[i].side, s[i].price, s[i].amount)
  }

  /** Whatever is alive, other than the order being processed, is in one of the two sides. */
  ghost predicate OnlyShown(lives: Lives, s1: seq<Order>, s2: seq<Order>, except: set<OrderID>) {
    forall id :: id in lives && lives[id].Live? && id !in except ==> id in Ids(s1) || id in Ids(s2)
  }

  ghost predicate Mirrors(lives: Lives, b: Book, except: set<OrderID>) {
    Shown(lives, b.bids) && Shown(lives, b.asks) && OnlyShown(lives, b.bids, b.asks, except)
  }

  /** One execution's maker event turns a mirror of the side before it into a mirror of the side after it. */
  lemma MakerStep(lives: Lives, side: Side, s: seq<Order>, other: seq<Order>, t: int, except: set<OrderID>)
    requires WellFormed(side, s) && s != [] && 0 < t <= s[0].amount && Ids(s) !! Ids(other)
    requires Shown(lives, s) && Shown(lives, other) && OnlyShown(lives, s, other, except) && s[0].id !in except
    ensures var next := ApplyChange(lives, MakerChange(FillOf(s[0], t)));
            && next.Some? && next.value.Keys == lives.Keys
            && Shown(next.value, Eaten(s, t)) && Shown(next.value, other)
            && OnlyShown(next.value, Eaten(s, t), other, except)
            && (forall id :: id in lives && id !in Ids(s) ==> next.value[id] == lives[id])
  {
    DistinctTail(s);
    var id := s[0].id;
    var next := ApplyChange(lives, MakerChange(FillOf(s[0], t))).value;
    assert id in Ids(s);
    forall i | 0 <= i < |s[1..]| ensures s[1..][i].id != id && s[1..][i] == s[i + 1] {
      assert s[1..][i].id in Ids(s[1..]);
    }
    forall i | 0 <= i < |other| ensures other[i].id != id {
      assert other[i].id in Ids(other);
    }
    if s[0].amount > t {
      IdsCons(Eaten(s, t));
      assert Eaten(s, t)[1..] == s[1..];
    }
  }

  /** The maker events of a whole match carry the mirror over to the side left over. */
  lemma {:induction false} MakersFollow(p: Precision, ticker: string, side: Side, s: seq<Order>, other: seq<Order>, taker: Order,
                                        n: nat, lives: Lives, except: set<OrderID>)
    requires WellFormed(side, s) && Ids(s) !! Ids(other) && Ids(s) !! except
    requires Shown(lives, s) && Shown(lives, other) && OnlyShown(lives, s, other, except)
    ensures var g := Greedy(p, ticker, s, taker, n);
            var next := Follow(lives, MakerChanges(g.fills));
            && next.Some? && next.value.Keys == lives.Keys
            && Shown(next.value, g.opposite) && Shown(next.value, other)
            && OnlyShown(next.value, g.opposite, other, except)
            && (forall id :: id in lives && id !in Ids(s) ==> next.value[id] == lives[id])
    decreases |s|, if taker.amount > 0 then taker.amount else 0
  {
    if Steps(p, s, taker) {
      var t := Traded(s, taker);
      MakerStep(lives, side, s, other, t, except);
      EatenWellFormed(side, s, t);
      var next := ApplyChange(lives, MakerChange(FillOf(s[0], t))).value;
      hide Shown, OnlyShown, WellFormed;
      MakersFollow(p, ticker, side, Eaten(s, t), other, Remaining(s, taker), n + 1, next, except);
      var rest := Greedy(p, ticker, Eaten(s, t), Remaining(s, taker), n + 1);
      var g := Greedy(p, ticker, s, taker, n);
      assert g.fills == [FillOf(s[0], t)] + rest.fills;
      assert MakerChanges(g.fills)[1..] == MakerChanges(rest.fills) by {
        assert g.fills[1..] == rest.fills;
      }
    }
  }

  // ----- the taker -----

  /** Where a taker's history stands after its match: alive with what is left if it rests, else closed. */
  function Settled(order: Order, remaining: int, isNew: bool): Life {
    if remaining > 0 && !(isNew && order.orderType == OrderType.Market) then Live(order.side, order.price, remaining)
    else Closed
  }

  /** The taker's own events start from its full amount. */
  lemma TakerFollows(lives: Lives, order: Order, remaining: int, isNew: bool)
    requires 0 <= remaining <= order.amount && 0 < order.amount
    requires order.id in lives && lives[order.id] == Live(order.side, order.price, order.amount)
    ensures var changes := TakerChanges(order, order.amount - remaining, remaining)
                           + (if isNew then RemainderChanges(order, remaining) else []);
            Follow(lives, changes) == Some(lives[order.id := Settled(order, remaining, isNew)])
  {
    var filled := order.amount - remaining;
    var a := TakerChanges(order, filled, remaining);
    var b := if isNew then RemainderChanges(order, remaining) else [];
    FollowConcat(lives, a, b);
    var mid := if filled <= 0 then lives
               else lives[order.id := if remaining > 0 then Live(order.side, order.price, remaining) else Closed];
    if filled > 0 {
      assert a[1..] == [];
    }
    assert Follow(lives, a) == Some(mid);
    if b != [] {
      assert b[1..] == [];
    }
    if b == [] {
      assert mid == lives[order.id := Settled(order, remaining, isNew)];
    } else {
      assert Follow(mid, b) == ApplyChange(mid, b[0]);
    }
    assert mid[order.id := Settled(order, remaining, isNew)] == lives[order.id := Settled(order, remaining, isNew)];
  }

  lemma {:induction false} ShownInsert(lives: Lives, side: Side, s: seq<Order>, o: Order)
    requires Shown(lives, s) && o.id in lives && lives[o.id] == Live(o.side, o.price, o.amount)
    ensures Shown(lives, Insert(side, s, o))
  {
    if s != [] && !Better(side, o.price, s[0].price) {
      ShownInsert(lives, side, s[1..], o);
    }
  }

  lemma ShownElsewhere(lives: Lives, s: seq<Order>, id: OrderID, life: Life)
    requires Shown(lives, s) && id !in Ids(s)
    ensures Shown(lives[id := life], s)
  {
    forall i | 0 <= i < |s| ensures s[i].id != id {
      assert s[i].id in Ids(s);
    }
  }

  /** Settling the taker completes the mirror of the final book. */
  lemma SettleMirrors(lives: Lives, matched: Book, order: Order, remaining: int, isNew: bool)
    requires Mirrors(lives, matched, {order.id}) && Absent(matched, order.id) && 0 <= remaining
    ensures var life := Settled(order, remaining, isNew);
            var final := if life.Live? then Rest(matched, order.(amount := remaining)) else matched;
            Mirrors(lives[order.id := life], final, {})
  {
    var life := Settled(order, remaining, isNew);
    var next := lives[order.id := life];
    ShownElsewhere(lives, matched.bids, order.id, life);
    ShownElsewhere(lives, matched.asks, order.id, life);
    if life.Live? {
      var o := order.(amount := remaining);
      ShownInsert(next, o.side, matched.On(o.side), o);
      IdsInsert(o.side, matched.On(o.side), o);
    }
  }

  lemma FirstFollows(lives: Lives, e: Edit)
    requires e.before.id in lives && lives[e.before.id] == Live(e.before.side, e.before.price, e.before.amount)
    requires e.after == e.before.(price := e.after.price, amount := e.after.amount, timestamp := e.after.timestamp)
    requires e.after.amount > 0
    ensures Follow(lives, [AmendedChange(e.before, e.after)])
            == Some(lives[e.before.id := Live(e.after.side, e.after.price, e.after.amount)])
  {
    assert [AmendedChange(e.before, e.after)][1..] == [];
  }

  /** The makers' events of a match carry the mirror over to the matched book. */
  lemma MakersMirror(m: Market, b: Book, order: Order, lives: Lives)
    requires SoundBook(b) && Incoming(order) && Absent(b, order.id) && Mirrors(lives, b, {order.id})
    ensures var g := Greedy(m.precision, m.ticker, b.On(order.side.Opposite()), order, 0);
            var next := Follow(lives, MakerChanges(g.fills));
            && next.Some? && next.value.Keys == lives.Keys
            && Mirrors(next.value, b.With(order.side.Opposite(), g.opposite), {order.id})
            && (order.id in lives ==> next.value[order.id] == lives[order.id])
  {
    var side := order.side.Opposite();
    assert Ids(b.On(side)) !! Ids(b.On(order.side));
    assert OnlyShown(lives, b.On(side), b.On(order.side), {order.id});
    hide Greedy, Ids, Shown;
    MakersFollow(m.precision, m.ticker, side, b.On(side), b.On(order.side), order, 0, lives, {order.id});
  }

  /** Matching an order and settling it: its whole batch follows, and mirrors the final book. */
  lemma PlanMatchFollows(m: Market, b: Book, c: Command, order: Order, isNew: bool, first: seq<Change>, lives0: Lives, lives: Lives)
    requires SoundBook(b) && Incoming(order) && Absent(b, order.id)
    requires Follow(lives0, first) == Some(lives) && Mirrors(lives, b, {order.id})
    requires order.id in lives && lives[order.id] == Live(order.side, order.price, order.amount)
    ensures var plan := PlanMatch(m, b, c, order, isNew, first);
            plan.Planned? ==>
              var next := Follow(lives0, plan.changes);
              && next.Some? && next.value.Keys == lives.Keys
              && Mirrors(next.value, plan.final, {})
  {
    hide Greedy, Mirrors, SoundBook, Absent, TakerChanges, RemainderChanges, Rest, Follow;
    var g := Greedy(m.precision, m.ticker, b.On(order.side.Opposite()), order, 0);
    if g.ok {
      var matched := b.With(order.side.Opposite(), g.opposite);
      MatchedBook(m, b, order);
      MakersMirror(m, b, order, lives);
      var makers := MakerChanges(g.fills);
      var rest := TakerChanges(order, order.amount - g.taker.amount, g.taker.amount)
                  + (if isNew then RemainderChanges(order, g.taker.amount) else []);
      var after := Follow(lives, makers).value;
      TakerFollows(after, order, g.taker.amount, isNew);
      SettleMirrors(after, matched, order, g.taker.amount, isNew);
      FollowConcat(lives0, first, makers + rest);
      FollowConcat(lives, makers, rest);
      assert PlanMatch(m, b, c, order, isNew, first).changes == first + (makers + rest);
    }
  }

  // ----- every command -----

  lemma {:induction false} ShownRemove(lives: Lives, s: seq<Order>, id: OrderID)
    requires Shown(lives, s)
    ensures Shown(lives, Remove(s, id))
  {
    if s != [] && s[0].id != id {
      ShownRemove(lives, s[1..], id);
    }
  }

  lemma WithdrawMirrors(lives: Lives, b: Book, o: Order, life: Life)
    requires SoundBook(b) && Lookup(b, o.id) == Some(o) && Mirrors(lives, b, {})
    ensures o.id in lives && lives[o.id] == Live(o.side, o.price, o.amount)
    ensures Mirrors(lives[o.id := life], Withdraw(b, o), {o.id})
  {
    LookupFinds(b, o.id);
    WithdrawSound(b, o);
    var s := b.On(o.side);
    var i := FindIndex(s, o.id);
    RemoveWellFormed(o.side, s, o.id);
    ShownRemove(lives, s, o.id);
    var w := Withdraw(b, o);
    ShownElsewhere(lives, w.bids, o.id, life);
    ShownElsewhere(lives, w.asks, o.id, life);
  }

  lemma RevalueMirrors(lives: Lives, b: Book, o: Order, after: Order)
    requires SoundBook(b) && Lookup(b, o.id) == Some(o) && Mirrors(lives, b, {})
    requires after == o.(amount := after.amount, timestamp := after.timestamp) && 0 < after.amount <= MAX_INT64
    ensures Mirrors(lives[o.id := Live(after.side, after.price, after.amount)], Revalue(b, after), {})
  {
    LookupFinds(b, o.id);
    RevalueSound(b, o, after);
    var s := b.On(o.side);
    var i := FindIndex(s, o.id);
    ShownReplace(lives, s, i, after);
    ShownElsewhere(lives, b.On(o.side.Opposite()), o.id, Live(after.side, after.price, after.amount));
    hide Shown, SoundBook, ValidBook, Replace, Ids;
  }

  lemma ShownReplace(lives: Lives, s: seq<Order>, k: nat, after: Order)
    requires Shown(lives, s) && Distinct(s) && k < |s| && s[k].id == after.id
    ensures Shown(lives[after.id := Live(after.side, after.price, after.amount)], Replace(s, after))
  {
    ReplaceAt(s, k, after);
  }

  /** An amendment that needs no rematch announces exactly its effect on the book. */
  lemma EditFollows(lives: Lives, b: Book, req: EditOrderRequest, recordedAt: Time)
    requires SoundBook(b) && ValidAmend(req) && Mirrors(lives, b, {}) && EditOf(b, req, recordedAt).Some?
    ensures var e := EditOf(b, req, recordedAt).value;
            var next := lives[e.after.id := Live(e.after.side, e.after.price, e.after.amount)];
            && e.after.id in lives
            && Follow(lives, [AmendedChange(e.before, e.after)]) == Some(next)
            && Mirrors(next, ApplyEdit(b, e), if e.requiresRematch then {e.after.id} else {})
  {
    hide Mirrors, SoundBook, Follow, Withdraw, Rest, Revalue, Absent, Lookup;
    var e := EditOf(b, req, recordedAt).value;
    var life := Live(e.after.side, e.after.price, e.after.amount);
    EditSound(b, req, recordedAt);
    WithdrawMirrors(lives, b, e.before, life);
    WithdrawSound(b, e.before);
    FirstFollows(lives, e);
    if !e.requiresRematch {
      if e.after.amount > e.before.amount {
        SettleMirrors(lives[e.after.id := life], Withdraw(b, e.before), e.after, e.after.amount, false);
        assert lives[e.after.id := life][e.after.id := life] == lives[e.after.id := life];
        assert e.after.(amount := e.after.amount) == e.after;
      } else {
        RevalueMirrors(lives, b, e.before, e.after);
      }
    }
  }

  function CreatedSet(c: Command): set<OrderID> {
    if CreatedID(c).Some? then {CreatedID(c).value} else {}
  }

  lemma UnseenIsAbsent(lives: Lives, b: Book, id: OrderID)
    requires Mirrors(lives, b, {}) && id !in lives
    ensures Absent(b, id)
  {
  }

  /** The projection once a command's order, if it makes one, is created with its full amount. */
  function Admit(lives: Lives, c: Command): Lives {
    if CreatedID(c).Some?
    then lives[CreatedID(c).value := Live(c.create.value.side, c.create.value.price, c.create.value.amount)]
    else lives
  }

  lemma AdmitMirrors(lives: Lives, b: Book, c: Command)
    requires Mirrors(lives, b, {}) && CreatedSet(c) !! lives.Keys
    ensures Mirrors(Admit(lives, c), b, CreatedSet(c))
  {
    if CreatedID(c).Some? {
      var id := CreatedID(c).value;
      UnseenIsAbsent(lives, b, id);
      ShownElsewhere(lives, b.bids, id, Admit(lives, c)[id]);
      ShownElsewhere(lives, b.asks, id, Admit(lives, c)[id]);
    }
  }

  lemma FollowNothing(lives: Lives)
    ensures Follow(lives, []) == Some(lives)
  {
  }

  /** A cancellation closes its order's history. */
  lemma CancelFollows(lives: Lives, b: Book, o: Order)
    requires SoundBook(b) && Lookup(b, o.id) == Some(o) && Mirrors(lives, b, {})
    ensures o.id in lives && Follow(lives, [CanceledChange(o)]) == Some(lives[o.id := Closed])
    ensures Mirrors(lives[o.id := Closed], Withdraw(b, o), {})
  {
    WithdrawMirrors(lives, b, o, Closed);
    assert [CanceledChange(o)][1..] == [];
  }

  /** Every command's changes continue the histories of its orders and mirror the book it leaves. */
  lemma PlanFollows(m: Market, b: Book, c: Command, lives: Lives)
    requires SoundBook(b) && Mirrors(lives, b, {}) && CreatedSet(c) !! lives.Keys
    ensures var plan := PlanCommand(m, b, c);
            plan.Planned? ==>
              var next := Follow(Admit(lives, c), plan.changes);
              && next.Some? && next.value.Keys == lives.Keys + CreatedSet(c)
              && Mirrors(next.value, plan.final, {})
  {
    hide Mirrors, SoundBook, Follow, Withdraw, Rest, Revalue, Absent, PlanMatch, ApplyEdit;
    FollowNothing(lives);
    if Accepts(m, c) {
      match c.kind
      case CreateCommand =>
        var order := CreateOrderAt(c.create.value, c.recordedAt);
        CreatedIncoming(c);
        UnseenIsAbsent(lives, b, order.id);
        AdmitMirrors(lives, b, c);
        FollowNothing(Admit(lives, c));
        PlanMatchFollows(m, b, c, order, true, [], Admit(lives, c), Admit(lives, c));
      case AmendCommand =>
        var edit := EditOf(b, c.amend.value, c.recordedAt);
        if edit.Some? {
          var e := edit.value;
          EditSound(b, c.amend.value, c.recordedAt);
          EditFollows(lives, b, c.amend.value, c.recordedAt);
          if e.requiresRematch {
            var next := lives[e.after.id := Live(e.after.side, e.after.price, e.after.amount)];
            PlanMatchFollows(m, ApplyEdit(b, e), c, e.after, false, [AmendedChange(e.before, e.after)], lives, next);
          }
        }
      case CancelCommand =>
        LookupSound(b, c.cancel.value.orderID);
        var o := Lookup(b, c.cancel.value.orderID);
        if o.Some? {
          CancelFollows(lives, b, o.value);
        }
    }
  }
}
