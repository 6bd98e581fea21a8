/**
 * Time priority over whole runs: at every price the queue is ordered by the sequence of the command
 * that last gave each order its place. Fills and smaller amounts never move an order.
 */
module Priority {
  import opened Models
  import opened Numeric
  import opened FlatBook
  import opened Levels
  import opened Matching
  import opened MatchingLaws
  import opened Journal
  import opened OrderEvents
  import opened Execution
  import opened BookLaws
  import opened JournalStores
  import opened Runs
  import opened Conservation

  type Ranks = map<OrderID, int>

  /** The order a command sends to the back of a queue: a new one, a repriced one, an enlarged one. */
  function Requeued(b: Book, c: Command): Option<OrderID> {
    match c.kind
    case CreateCommand => CreatedID(c)
    case AmendCommand =>
      (match if c.amend.Some? then EditOf(b, c.amend.value, c.recordedAt) else None
       case None => None
       case Some(e) => if e.requiresRematch || e.after.amount > e.before.amount then Some(e.after.id) else None)
    case CancelCommand => None
  }

  /** For each order, the sequence of the command that last requeued it; a refused command requeues nothing. */
  function RanksOf(m: Market, cmds: seq<Command>): Ranks {
    if cmds == [] then map[]
    else
      var n := |cmds| - 1;
      var ranks := RanksOf(m, cmds[..n]);
      var r := Replayed(m, cmds[..n]);
      if !r.ok || PlanCommand(m, r.book, cmds[n]).Refused? then ranks else Reranked(ranks, r.book, cmds[n])
  }

  function Reranked(ranks: Ranks, b: Book, c: Command): Ranks {
    var id := Requeued(b, c);
    if id.Some? then ranks[id.value := c.sequence] else ranks
  }

  /** The books a command may leave: as it found it, where matching broke off, after matching, or at its end. */
  predicate LeftBy(plan: Plan, b: Book, next: Book) {
    match plan
    case Refused => next == b
    case Broken(book) => next == book
    case Planned(matched, _, final, _, _) => next == matched || next == final
  }

  /** Every order has a rank up to the limit, and ranks strictly increase along the queue of each price. */
  ghost predicate Ranked(s: seq<Order>, ranks: Ranks, limit: int) {
    && (forall i :: 0 <= i < |s| ==> s[i].id in ranks && ranks[s[i].id] <= limit)
    && (forall i, k :: 0 <= i < k < |s| && s[i].price == s[k].price && s[i].id in ranks && s[k].id in ranks
          ==> ranks[s[i].id] < ranks[s[k].id])
  }

  ghost predicate RankedBook(b: Book, ranks: Ranks, limit: int) {
    Ranked(b.bids, ranks, limit) && Ranked(b.asks, ranks, limit)
  }

  lemma RankedTail(s: seq<Order>, ranks: Ranks, limit: int)
    requires s != [] && Ranked(s, ranks, limit)
    ensures Ranked(s[1..], ranks, limit)
  {
    forall i, k | 0 <= i < k < |s[1..]| && s[1..][i].price == s[1..][k].price
      ensures ranks[s[1..][i].id] < ranks[s[1..][k].id]
    {
      assert s[1..][i] == s[i + 1] && s[1..][k] == s[k + 1];
    }
  }

  lemma RankedEaten(s: seq<Order>, t: int, ranks: Ranks, limit: int)
    requires s != [] && Ranked(s, ranks, limit)
    ensures Ranked(Eaten(s, t), ranks, limit)
  {
    RankedTail(s, ranks, limit);
    var e := Eaten(s, t);
    if s[0].amount > t {
      forall i | 0 <= i < |s| ensures e[i].id == s[i].id && e[i].price == s[i].price {
      }
    }
  }

  lemma {:induction false} RankedMatch(p: Precision, ticker: string, opposite: seq<Order>, taker: Order, n: nat, ranks: Ranks, limit: int)
    requires Ranked(opposite, ranks, limit)
    ensures Ranked(Greedy(p, ticker, opposite, taker, n).opposite, ranks, limit)
    decreases |opposite|, if taker.amount > 0 then taker.amount else 0
  {
    if Steps(p, opposite, taker) {
      RankedEaten(opposite, Traded(opposite, taker), ranks, limit);
      RankedMatch(p, ticker, Eaten(opposite, Traded(opposite, taker)), Remaining(opposite, taker), n + 1, ranks, limit);
    }
  }

  /** An order that is not on a side may get any newer rank without disturbing the side. */
  lemma RankedElsewhere(s: seq<Order>, ranks: Ranks, limit: int, id: OrderID, rank: int)
    requires Ranked(s, ranks, limit) && id !in Ids(s) && limit <= rank
    ensures Ranked(s, ranks[id := rank], rank)
  {
    forall i | 0 <= i < |s| ensures s[i].id != id {
      assert s[i].id in Ids(s);
    }
  }

  lemma RankedLater(s: seq<Order>, ranks: Ranks, limit: int, later: int)
    requires Ranked(s, ranks, limit) && limit <= later
    ensures Ranked(s, ranks, later)
  {
  }

  /** The newest order goes behind every order of its price. */
  lemma RankedInsert(side: Side, s: seq<Order>, o: Order, ranks: Ranks, limit: int, rank: int)
    requires Sorted(side, s) && Ranked(s, ranks, limit) && o.id !in Ids(s) && limit < rank
    ensures Ranked(Insert(side, s, o), ranks[o.id := rank], rank)
  {
    RankedElsewhere(s, ranks, limit, o.id, rank);
    var k := InsertSplits(side, s, o);
    forall i | 0 <= i < |s| ensures s[i].id != o.id {
      assert s[i].id in Ids(s);
    }
    RankedSplit(s, o, k, ranks[o.id := rank], rank);
  }

  lemma RankedSplit(s: seq<Order>, o: Order, k: nat, ranks: Ranks, limit: int)
    requires k <= |s| && Ranked(s, ranks, limit) && o.id in ranks && ranks[o.id] == limit
    requires forall i :: 0 <= i < |s| ==> ranks[s[i].id] < limit
    requires forall i :: k <= i < |s| ==> s[i].price != o.price
    ensures Ranked(s[..k] + [o] + s[k..], ranks, limit)
  {
    var t := s[..k] + [o] + s[k..];
    forall i | 0 <= i < |t| ensures t[i] == if i < k then s[i] else if i == k then o else s[i - 1] {
    }
  }

  lemma RankedRemove(s: seq<Order>, id: OrderID, ranks: Ranks, limit: int)
    requires Ranked(s, ranks, limit) && Distinct(s)
    ensures Ranked(Remove(s, id), ranks, limit)
  {
    if id in Ids(s) {
      var k := FindIndex(s, id);
      RemoveAt(s, k);
      hide Remove, Distinct;
      var t := Remove(s, id);
      forall i | 0 <= i < |t| ensures t[i] == s[if i < k then i else i + 1] {
      }
    } else {
      FindAbsent(s, id);
    }
  }

  lemma RankedReplace(s: seq<Order>, k: int, after: Order, ranks: Ranks, limit: int)
    requires Ranked(s, ranks, limit) && Distinct(s) && 0 <= k < |s| && s[k].id == after.id && s[k].price == after.price
    ensures Ranked(Replace(s, after), ranks, limit)
  {
    ReplaceAt(s, k, after);
  }

  lemma PlanMatchRanked(m: Market, b: Book, c: Command, order: Order, isNew: bool, first: seq<Change>,
                        ranks: Ranks, limit: int, rank: int, next: Book)
    requires SoundBook(b) && Incoming(order) && Absent(b, order.id) && RankedBook(b, ranks, limit) && limit < rank
    requires LeftBy(PlanMatch(m, b, c, order, isNew, first), b, next)
    ensures RankedBook(next, ranks[order.id := rank], rank)
  {
    hide Greedy, Ranked, Ids, Insert, SoundBook, Absent;
    var side := order.side.Opposite();
    var g := Greedy(m.precision, m.ticker, b.On(side), order, 0);
    var matched := b.With(side, g.opposite);
    MatchedBook(m, b, order);
    RankedMatch(m.precision, m.ticker, b.On(side), order, 0, ranks, limit);
    MatchedParts(matched, order);
    RankedElsewhere(matched.bids, ranks, limit, order.id, rank);
    RankedElsewhere(matched.asks, ranks, limit, order.id, rank);
    RankedInsert(order.side, matched.On(order.side), g.taker, ranks, limit, rank);
  }

  lemma MatchedParts(b: Book, order: Order)
    requires SoundBook(b) && Absent(b, order.id)
    ensures order.id !in Ids(b.bids) && order.id !in Ids(b.asks) && Sorted(order.side, b.On(order.side))
  {
  }

  lemma WithdrawRanked(b: Book, o: Order, ranks: Ranks, limit: int)
    requires SoundBook(b) && RankedBook(b, ranks, limit)
    ensures RankedBook(Withdraw(b, o), ranks, limit)
  {
    RankedRemove(b.On(o.side), o.id, ranks, limit);
  }

  lemma EditRanked(b: Book, req: EditOrderRequest, recordedAt: Time, ranks: Ranks, limit: int, rank: int)
    requires SoundBook(b) && ValidAmend(req) && EditOf(b, req, recordedAt).Some? && RankedBook(b, ranks, limit) && limit < rank
    ensures var e := EditOf(b, req, recordedAt).value;
            if e.requiresRematch then RankedBook(ApplyEdit(b, e), ranks, limit)
            else if e.after.amount > e.before.amount then RankedBook(ApplyEdit(b, e), ranks[e.after.id := rank], rank)
            else RankedBook(ApplyEdit(b, e), ranks, rank)
  {
    var e := EditOf(b, req, recordedAt).value;
    LookupFinds(b, req.orderID);
    WithdrawSound(b, e.before);
    WithdrawRanked(b, e.before, ranks, limit);
    var w := Withdraw(b, e.before);
    hide Ranked, SoundLimit;
    if !e.requiresRematch {
      if e.after.amount > e.before.amount {
        RankedInsert(e.after.side, w.On(e.after.side), e.after, ranks, limit, rank);
        RankedElsewhere(w.On(e.after.side.Opposite()), ranks, limit, e.after.id, rank);
      } else {
        var k := FindIndex(b.On(e.before.side), e.before.id);
        RankedReplace(b.On(e.before.side), k, e.after, ranks, limit);
        RankedLater(ApplyEdit(b, e).bids, ranks, limit, rank);
        RankedLater(ApplyEdit(b, e).asks, ranks, limit, rank);
      }
    }
  }

  lemma PlanRanked(m: Market, b: Book, c: Command, ranks: Ranks, limit: int, next: Book)
    requires SoundBook(b) && (CreatedID(c).Some? ==> Absent(b, CreatedID(c).value))
    requires RankedBook(b, ranks, limit) && limit < c.sequence
    requires !PlanCommand(m, b, c).Refused? && LeftBy(PlanCommand(m, b, c), b, next)
    ensures RankedBook(next, Reranked(ranks, b, c), c.sequence)
  {
    hide SoundBook, PlanMatch, ApplyEdit, Absent, Ranked, Withdraw;
    RankedLater(b.bids, ranks, limit, c.sequence);
    RankedLater(b.asks, ranks, limit, c.sequence);
    match c.kind
    case CreateCommand =>
      CreatedIncoming(c);
      PlanMatchRanked(m, b, c, CreateOrderAt(c.create.value, c.recordedAt), true, [], ranks, limit, c.sequence, next);
    case AmendCommand =>
      var edit := EditOf(b, c.amend.value, c.recordedAt);
      if edit.Some? {
        var e := edit.value;
        EditSound(b, c.amend.value, c.recordedAt);
        EditRanked(b, c.amend.value, c.recordedAt, ranks, limit, c.sequence);
        if e.requiresRematch {
          PlanMatchRanked(m, ApplyEdit(b, e), c, e.after, false, [AmendedChange(e.before, e.after)], ranks, limit, c.sequence, next);
        }
      }
    case CancelCommand =>
      var o := Lookup(b, c.cancel.value.orderID);
      if o.Some? {
        WithdrawRanked(b, o.value, ranks, c.sequence);
      }
  }

  ghost predicate SequencesIncrease(cmds: seq<Command>) {
    forall i, k :: 0 <= i < k < |cmds| ==> cmds[i].sequence < cmds[k].sequence
  }

  /**
   * In every reachable book, the one a failed command leaves included, each price queue is strictly
   * ordered by the commands that requeued its orders.
   */
  lemma {:induction false} TimePriority(m: Market, cmds: seq<Command>)
    requires FreshIDs(cmds) && SequencesIncrease(cmds)
    ensures RankedBook(Replayed(m, cmds).book, RanksOf(m, cmds), if cmds == [] then 0 else cmds[|cmds| - 1].sequence)
    decreases |cmds|
  {
    hide RankedBook, SoundBook, Absent, PlanCommand, Advance, Reranked, LeftBy;
    if cmds == [] {
      NothingRanked(0);
    } else {
      var n := |cmds| - 1;
      var r := Replayed(m, cmds[..n]);
      FreshPrefix(cmds);
      TimePriority(m, cmds[..n]);
      var limit := if n == 0 then cmds[n].sequence - 1 else cmds[n - 1].sequence;
      if n == 0 {
        NothingRanked(limit);
      }
      RankedBookLater(r.book, RanksOf(m, cmds[..n]), limit, cmds[n].sequence);
      AdvanceLeaves(m, r, cmds[n]);
      if r.ok && !PlanCommand(m, r.book, cmds[n]).Refused? {
        NewIsAbsent(m, cmds[..n], cmds[n]);
        PlanRanked(m, r.book, cmds[n], RanksOf(m, cmds[..n]), limit, Replayed(m, cmds).book);
      }
    }
  }

  lemma AdvanceLeaves(m: Market, r: Run, c: Command)
    ensures !r.ok || PlanCommand(m, r.book, c).Refused? ==> Advance(m, r, c).book == r.book
    ensures r.ok ==> LeftBy(PlanCommand(m, r.book, c), r.book, Advance(m, r, c).book)
  {
    hide PlanCommand;
  }

  lemma RankedBookLater(b: Book, ranks: Ranks, limit: int, later: int)
    requires RankedBook(b, ranks, limit) && limit <= later
    ensures RankedBook(b, ranks, later)
  {
  }

  lemma NothingRanked(limit: int)
    ensures RankedBook(EMPTY_BOOK, map[], limit)
  {
  }

  // ----- no command reorders two other orders -----

  /** Everything on t but one order was on s, at the same price. */
  ghost predicate KeptFrom(t: seq<Order>, s: seq<Order>, except: Option<OrderID>) {
    forall i :: 0 <= i < |t| && except != Some(t[i].id) ==> exists j :: 0 <= j < |s| && SamePlace(s[j], t[i])
  }

  predicate SamePlace(before: Order, after: Order) {
    before.id == after.id && before.price == after.price
  }

  ghost predicate BookKept(b: Book, next: Book, except: Option<OrderID>) {
    KeptFrom(next.bids, b.bids, except) && KeptFrom(next.asks, b.asks, except)
  }

  lemma KeptSame(s: seq<Order>, except: Option<OrderID>)
    ensures KeptFrom(s, s, except)
  {
    forall i | 0 <= i < |s| ensures SamePlace(s[i], s[i]) {
    }
  }

  lemma KeptTwice(s: seq<Order>, mid: seq<Order>, t: seq<Order>, except: Option<OrderID>)
    requires KeptFrom(mid, s, except) && KeptFrom(t, mid, except)
    ensures KeptFrom(t, s, except)
  {
    forall i | 0 <= i < |t| && except != Some(t[i].id) ensures exists j :: 0 <= j < |s| && SamePlace(s[j], t[i]) {
      var k :| 0 <= k < |mid| && SamePlace(mid[k], t[i]);
      var j :| 0 <= j < |s| && SamePlace(s[j], mid[k]);
      assert SamePlace(s[j], t[i]);
    }
  }

  lemma KeptLeftover(s: seq<Order>, k: nat, left: int, except: Option<OrderID>)
    requires k <= |s|
    ensures KeptFrom(Leftover(s, k, left), s, except)
  {
    var t := Leftover(s, k, left);
    var skipped := if k == 0 || left == 0 then k else k - 1;
    forall i | 0 <= i < |t| ensures SamePlace(s[skipped + i], t[i]) {
    }
  }

  lemma KeptMatch(p: Precision, ticker: string, s: seq<Order>, taker: Order, except: Option<OrderID>)
    requires Positive(s)
    ensures KeptFrom(Greedy(p, ticker, s, taker, 0).opposite, s, except)
  {
    Shape(p, ticker, s, taker, 0);
    var g := Greedy(p, ticker, s, taker, 0);
    hide Greedy, Leftover, KeptFrom, LastLeft;
    KeptLeftover(s, |g.fills|, LastLeft(g.fills), except);
  }

  lemma KeptInsert(side: Side, s: seq<Order>, o: Order)
    requires Sorted(side, s)
    ensures KeptFrom(Insert(side, s, o), s, Some(o.id))
  {
    var k := InsertSplits(side, s, o);
    var t := Insert(side, s, o);
    forall i | 0 <= i < |t| && t[i].id != o.id ensures exists j :: 0 <= j < |s| && SamePlace(s[j], t[i]) {
      assert SamePlace(s[if i < k then i else i - 1], t[i]);
    }
  }

  lemma KeptRemove(s: seq<Order>, id: OrderID, except: Option<OrderID>)
    requires Distinct(s) && id in Ids(s)
    ensures KeptFrom(Remove(s, id), s, except)
  {
    var k := FindIndex(s, id);
    RemoveAt(s, k);
    var t := Remove(s, id);
    forall i | 0 <= i < |t| ensures SamePlace(s[if i < k then i else i + 1], t[i]) {
    }
  }

  lemma KeptReplace(s: seq<Order>, o: Order, except: Option<OrderID>)
    requires Distinct(s) && o.id in Ids(s) && Find(s, o.id).Some? && Find(s, o.id).value.price == o.price
    ensures KeptFrom(Replace(s, o), s, except)
  {
    var k := FindIndex(s, o.id);
    ReplaceAt(s, k, o);
    var t := Replace(s, o);
    forall i | 0 <= i < |t| ensures SamePlace(s[i], t[i]) {
    }
  }

  lemma PlanMatchKept(m: Market, b: Book, c: Command, order: Order, isNew: bool, first: seq<Change>, next: Book)
    requires SoundBook(b) && Incoming(order) && Absent(b, order.id)
    requires LeftBy(PlanMatch(m, b, c, order, isNew, first), b, next)
    ensures BookKept(b, next, Some(order.id))
  {
    hide Greedy, KeptFrom, SoundBook, Absent, Insert;
    var side := order.side.Opposite();
    var g := Greedy(m.precision, m.ticker, b.On(side), order, 0);
    var matched := b.With(side, g.opposite);
    MatchedBook(m, b, order);
    PositiveSide(b, side);
    MatchedParts(matched, order);
    KeptMatch(m.precision, m.ticker, b.On(side), order, Some(order.id));
    KeptSame(b.On(order.side), Some(order.id));
    KeptInsert(order.side, matched.On(order.side), g.taker);
  }

  lemma NeverRefused(m: Market, b: Book, c: Command, order: Order, isNew: bool, first: seq<Change>)
    ensures !PlanMatch(m, b, c, order, isNew, first).Refused?
  {
    hide Greedy;
  }

  lemma PositiveSide(b: Book, side: Side)
    requires SoundBook(b)
    ensures Positive(b.On(side))
  {
  }

  lemma WithdrawKept(b: Book, o: Order, except: Option<OrderID>)
    requires SoundBook(b) && Lookup(b, o.id) == Some(o)
    ensures BookKept(b, Withdraw(b, o), except)
  {
    LookupFinds(b, o.id);
    KeptRemove(b.On(o.side), o.id, except);
    KeptSame(b.On(o.side.Opposite()), except);
  }

  lemma BookKeptTwice(b: Book, mid: Book, next: Book, except: Option<OrderID>)
    requires BookKept(b, mid, except) && BookKept(mid, next, except)
    ensures BookKept(b, next, except)
  {
    KeptTwice(b.bids, mid.bids, next.bids, except);
    KeptTwice(b.asks, mid.asks, next.asks, except);
  }

  lemma EditKept(b: Book, req: EditOrderRequest, recordedAt: Time)
    requires SoundBook(b) && ValidAmend(req) && EditOf(b, req, recordedAt).Some?
    ensures var e := EditOf(b, req, recordedAt).value;
            var moved := e.requiresRematch || e.after.amount > e.before.amount;
            BookKept(b, ApplyEdit(b, e), if moved then Some(e.after.id) else None)
  {
    var e := EditOf(b, req, recordedAt).value;
    LookupFinds(b, req.orderID);
    WithdrawSound(b, e.before);
    var w := Withdraw(b, e.before);
    var side := e.after.side;
    hide KeptFrom;
    if e.requiresRematch {
      WithdrawKept(b, e.before, Some(e.after.id));
    } else if e.after.amount > e.before.amount {
      WithdrawKept(b, e.before, Some(e.after.id));
      KeptInsert(side, w.On(side), e.after);
      KeptSame(w.On(side.Opposite()), Some(e.after.id));
      BookKeptTwice(b, w, Rest(w, e.after), Some(e.after.id));
    } else {
      KeptReplace(b.On(side), e.after, None);
      KeptSame(b.On(side.Opposite()), None);
    }
  }

  /** Every order but the requeued one stays at its price, if it stays. */
  lemma PlanKept(m: Market, b: Book, c: Command, next: Book)
    requires SoundBook(b) && (CreatedID(c).Some? ==> Absent(b, CreatedID(c).value)) && LeftBy(PlanCommand(m, b, c), b, next)
    ensures BookKept(b, next, Requeued(b, c))
  {
    hide SoundBook, PlanMatch, ApplyEdit, Absent, BookKept, Withdraw;
    BookKeptSame(b, Requeued(b, c));
    if Accepts(m, c) {
      match c.kind
      case CreateCommand =>
        CreatedIncoming(c);
        PlanMatchKept(m, b, c, CreateOrderAt(c.create.value, c.recordedAt), true, [], next);
      case AmendCommand =>
        var edit := EditOf(b, c.amend.value, c.recordedAt);
        if edit.Some? {
          var e := edit.value;
          EditSound(b, c.amend.value, c.recordedAt);
          EditKept(b, c.amend.value, c.recordedAt);
          if e.requiresRematch {
            NeverRefused(m, ApplyEdit(b, e), c, e.after, false, [AmendedChange(e.before, e.after)]);
            PlanMatchKept(m, ApplyEdit(b, e), c, e.after, false, [AmendedChange(e.before, e.after)], next);
            BookKeptTwice(b, ApplyEdit(b, e), next, Some(e.after.id));
          }
        }
      case CancelCommand =>
        LookupSound(b, c.cancel.value.orderID);
        var o := Lookup(b, c.cancel.value.orderID);
        if o.Some? {
          WithdrawKept(b, o.value, None);
        }
    }
  }

  lemma BookKeptSame(b: Book, except: Option<OrderID>)
    ensures BookKept(b, b, except)
  {
    KeptSame(b.bids, except);
    KeptSame(b.asks, except);
  }

  function IndexOf(s: seq<Order>, id: OrderID): nat {
    if s == [] || s[0].id == id then 0 else 1 + IndexOf(s[1..], id)
  }

  lemma {:induction false} IndexOfAt(s: seq<Order>, i: nat)
    requires i < |s| && Distinct(s)
    ensures IndexOf(s, s[i].id) == i
  {
    if i > 0 {
      assert s[0].id != s[i].id;
      DistinctTail(s);
      IndexOfAt(s[1..], i - 1);
    }
  }

  /** Ranks that say nothing but where each order stands. */
  function Standing(b: Book, base: int): Ranks {
    map id | id in Ids(b.bids) + Ids(b.asks) :: base + (if id in Ids(b.bids) then IndexOf(b.bids, id) else IndexOf(b.asks, id))
  }

  lemma StandingRanks(b: Book, base: int)
    requires ValidBook(b)
    ensures RankedBook(b, Standing(b, base), base + |b.bids| + |b.asks|)
    ensures forall i :: 0 <= i < |b.bids| ==> b.bids[i].id in Standing(b, base) && Standing(b, base)[b.bids[i].id] == base + i
    ensures forall i :: 0 <= i < |b.asks| ==> b.asks[i].id in Standing(b, base) && Standing(b, base)[b.asks[i].id] == base + i
  {
    forall i | 0 <= i < |b.bids| ensures b.bids[i].id in Ids(b.bids) && IndexOf(b.bids, b.bids[i].id) == i {
      IndexOfAt(b.bids, i);
    }
    forall i | 0 <= i < |b.asks| ensures b.asks[i].id in Ids(b.asks) && IndexOf(b.asks, b.asks[i].id) == i {
      IndexOfAt(b.asks, i);
    }
  }

  lemma SortedPair(side: Side, s: seq<Order>, l: nat, j: nat)
    requires Sorted(side, s) && l < |s| && j < |s|
    ensures l < j ==> !Better(side, s[j].price, s[l].price)
  {
  }

  /** The earlier of two orders stands in front, by price or, at one price, by rank. */
  lemma StandsInFront(side: Side, s: seq<Order>, t: seq<Order>, ranks: Ranks, limit: int, base: int, i: nat, k: nat, j: nat, l: nat)
    requires Sorted(side, s) && Sorted(side, t) && Ranked(t, ranks, limit)
    requires i < k < |t| && j < |s| && l < |s| && j != l && SamePlace(s[j], t[i]) && SamePlace(s[l], t[k])
    requires t[i].id in ranks && ranks[t[i].id] == base + j && t[k].id in ranks && ranks[t[k].id] == base + l
    ensures j < l
  {
    assert !Better(side, t[k].price, t[i].price);
    SortedPair(side, s, l, j);
    assert t[i].price == t[k].price ==> ranks[t[i].id] < ranks[t[k].id];
  }

  lemma DistinctIn(side: Side, t: seq<Order>, i: nat, k: nat)
    requires WellFormed(side, t) && i < k < |t|
    ensures t[i].id != t[k].id && Sorted(side, t)
  {
  }

  lemma SoundParts(b: Book, side: Side)
    requires SoundBook(b)
    ensures ValidBook(b) && WellFormed(side, b.On(side)) && Sorted(side, b.On(side))
  {
  }

  /**
   * No command reorders two orders other than the one it sends to the back of a queue, at whichever exit
   * it leaves the book: of any two that are left on a side, the one in front was in front before, and
   * both are at the prices they had.
   */
  lemma NeverReordered(m: Market, b: Book, c: Command, next: Book, side: Side, i: nat, k: nat) returns (j: nat, l: nat)
    requires SoundBook(b) && (CreatedID(c).Some? ==> Absent(b, CreatedID(c).value)) && LeftBy(PlanCommand(m, b, c), b, next)
    requires i < k < |next.On(side)|
    requires Requeued(b, c) != Some(next.On(side)[i].id) && Requeued(b, c) != Some(next.On(side)[k].id)
    ensures var s, t := b.On(side), next.On(side);
            j < l < |s| && SamePlace(s[j], t[i]) && SamePlace(s[l], t[k])
  {
    hide PlanCommand, Absent, Ids, Standing, Requeued, SoundBook, ValidBook, WellFormed, Sorted, Ranked, LeftBy;
    if PlanCommand(m, b, c).Refused? {
      LeftRefused(PlanCommand(m, b, c), b, next);
      j, l := i, k;
      return;
    }
    var s, t := b.On(side), next.On(side);
    PlanKept(m, b, c, next);
    PlanSound(m, b, c);
    LeftSound(PlanCommand(m, b, c), b, next);
    SoundParts(b, side);
    SoundParts(next, side);
    j :| j < |s| && SamePlace(s[j], t[i]);
    l :| l < |s| && SamePlace(s[l], t[k]);
    var base := c.sequence - 1 - |b.bids| - |b.asks|;
    StandingRanks(b, base);
    PlanRanked(m, b, c, Standing(b, base), c.sequence - 1, next);
    DistinctIn(side, t, i, k);
    StandsInFront(side, s, t, Reranked(Standing(b, base), b, c), c.sequence, base, i, k, j, l);
  }

  lemma LeftRefused(plan: Plan, b: Book, next: Book)
    requires plan.Refused? && LeftBy(plan, b, next)
    ensures next == b
  {
  }

  lemma LeftSound(plan: Plan, b: Book, next: Book)
    requires LeftBy(plan, b, next) && SoundBook(b)
    requires plan.Broken? ==> SoundBook(plan.book)
    requires plan.Planned? ==> SoundBook(plan.matched) && SoundBook(plan.final)
    ensures SoundBook(next)
  {
  }
}
