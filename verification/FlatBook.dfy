/**
 * The abstract order book: each side is one sequence of orders, best price first and first-in
 * first-out within a price. The mutable book of module OrderBooks is proved against it.
 */
module FlatBook {
  import opened Models

  datatype Book = Book(bids: seq<Order>, asks: seq<Order>) {
    function On(side: Side): seq<Order> {
      if side == Bid then bids else asks
    }

    function With(side: Side, orders: seq<Order>): Book {
      if side == Bid then Book(orders, asks) else Book(bids, orders)
    }
  }

  /** Price p has strictly higher priority than price q among the resting orders of a side. */
  predicate Better(side: Side, p: int, q: int) {
    if side == Bid then p > q else p < q
  }

  ghost predicate Sorted(side: Side, s: seq<Order>) {
    forall i, j :: 0 <= i < j < |s| ==> !Better(side, s[j].price, s[i].price)
  }

  ghost predicate Distinct(s: seq<Order>) {
    forall i, j :: 0 <= i < j < |s| ==> s[i].id != s[j].id
  }

  predicate Restable(side: Side, o: Order) {
    o.side == side && 0 < o.amount <= MAX_INT64 && !o.id.IsEmpty()
  }

  /** What every reachable side of a book satisfies. */
  ghost predicate WellFormed(side: Side, s: seq<Order>) {
    && Sorted(side, s)
    && Distinct(s)
    && forall i :: 0 <= i < |s| ==> Restable(side, s[i])
  }

  function Ids(s: seq<Order>): set<OrderID> {
    set i | 0 <= i < |s| :: s[i].id
  }

  ghost predicate ValidBook(b: Book) {
    WellFormed(Bid, b.bids) && WellFormed(Ask, b.asks) && Ids(b.bids) !! Ids(b.asks)
  }

  /** The first-in first-out queue at one price. */
  function AtPrice(s: seq<Order>, p: int): seq<Order> {
    if s == [] then [] else (if s[0].price == p then [s[0]] else []) + AtPrice(s[1..], p)
  }

  /** A new order goes behind every order whose price is at least as good. */
  function Insert(side: Side, s: seq<Order>, o: Order): seq<Order> {
    if s == [] || Better(side, o.price, s[0].price) then [o] + s
    else [s[0]] + Insert(side, s[1..], o)
  }

  function Remove(s: seq<Order>, id: OrderID): seq<Order> {
    if s == [] then [] else if s[0].id == id then s[1..] else [s[0]] + Remove(s[1..], id)
  }

  /** Replaces the order that has o's identity by o, in place. */
  function Replace(s: seq<Order>, o: Order): seq<Order> {
    if s == [] then [] else if s[0].id == o.id then [o] + s[1..] else [s[0]] + Replace(s[1..], o)
  }

  function Find(s: seq<Order>, id: OrderID): Option<Order> {
    if s == [] then None else if s[0].id == id then Some(s[0]) else Find(s[1..], id)
  }

  function Total(s: seq<Order>): int {
    if s == [] then 0 else s[0].amount + Total(s[1..])
  }

  // ----- facts about the queues at each price -----

  lemma AtPriceElems(s: seq<Order>, p: int, i: int)
    requires 0 <= i < |AtPrice(s, p)|
    ensures AtPrice(s, p)[i].price == p
    ensures exists k :: 0 <= k < |s| && s[k] == AtPrice(s, p)[i]
  {
    if s[0].price == p && i == 0 {
      assert s[0] == AtPrice(s, p)[i];
    } else {
      var j := if s[0].price == p then i - 1 else i;
      AtPriceElems(s[1..], p, j);
      var k :| 0 <= k < |s[1..]| && s[1..][k] == AtPrice(s[1..], p)[j];
      assert s[k + 1] == AtPrice(s, p)[i];
    }
  }

  lemma AtPriceHas(s: seq<Order>, k: int) returns (i: int)
    requires 0 <= k < |s|
    ensures 0 <= i < |AtPrice(s, s[k].price)| && AtPrice(s, s[k].price)[i] == s[k]
  {
    if k == 0 {
      i := 0;
    } else {
      i := AtPriceHas(s[1..], k - 1);
      if s[0].price == s[k].price {
        i := i + 1;
      }
    }
  }

  lemma DistinctTail(s: seq<Order>)
    requires s != [] && Distinct(s)
    ensures Distinct(s[1..])
    ensures s[0].id !in Ids(s[1..])
    ensures Ids(s) == {s[0].id} + Ids(s[1..])
  {
    forall i, j | 0 <= i < j < |s[1..]| ensures s[1..][i].id != s[1..][j].id {
      assert s[i + 1].id != s[j + 1].id;
    }
    IdsCons(s);
  }

  lemma IdsCons(s: seq<Order>)
    requires s != []
    ensures Ids(s) == {s[0].id} + Ids(s[1..])
  {
    forall id | id in Ids(s) ensures id in {s[0].id} + Ids(s[1..]) {
      var i :| 0 <= i < |s| && s[i].id == id;
      if i > 0 {
        assert s[1..][i - 1].id == id;
      }
    }
    forall id | id in Ids(s[1..]) ensures id in Ids(s) {
      var i :| 0 <= i < |s[1..]| && s[1..][i].id == id;
      assert s[i + 1].id == id;
    }
  }

  lemma AtPriceDistinct(s: seq<Order>, p: int)
    requires Distinct(s)
    ensures Distinct(AtPrice(s, p))
  {
    if s != [] {
      DistinctTail(s);
      AtPriceDistinct(s[1..], p);
      var q := AtPrice(s[1..], p);
      forall j | 0 <= j < |q| ensures q[j].id != s[0].id {
        AtPriceElems(s[1..], p, j);
        var k :| 0 <= k < |s[1..]| && s[1..][k] == q[j];
        assert s[1..][k].id in Ids(s[1..]);
      }
    }
  }

  lemma SortedTail(side: Side, s: seq<Order>)
    requires s != [] && Sorted(side, s)
    ensures Sorted(side, s[1..])
  {
    forall i, j | 0 <= i < j < |s[1..]| ensures !Better(side, s[1..][j].price, s[1..][i].price) {
      assert !Better(side, s[j + 1].price, s[i + 1].price);
    }
  }

  lemma WellFormedTail(side: Side, s: seq<Order>)
    requires s != [] && WellFormed(side, s)
    ensures WellFormed(side, s[1..])
  {
    SortedTail(side, s);
    DistinctTail(s);
  }

  lemma {:induction false} NoneAtBetter(side: Side, s: seq<Order>, p: int)
    requires Sorted(side, s) && (s == [] || Better(side, p, s[0].price))
    ensures AtPrice(s, p) == []
  {
    if s != [] {
      SortedTail(side, s);
      assert |s| > 1 ==> !Better(side, s[1].price, s[0].price);
      NoneAtBetter(side, s[1..], p);
    }
  }

  lemma {:induction false} AtPriceInsert(side: Side, s: seq<Order>, o: Order, p: int)
    requires Sorted(side, s)
    ensures AtPrice(Insert(side, s, o), p) ==
            if p == o.price then AtPrice(s, p) + [o] else AtPrice(s, p)
  {
    var t := Insert(side, s, o);
    if s == [] || Better(side, o.price, s[0].price) {
      assert t[1..] == s;
      NoneAtBetter(side, s, o.price);
    } else {
      SortedTail(side, s);
      AtPriceInsert(side, s[1..], o, p);
      assert t[1..] == Insert(side, s[1..], o);
    }
  }

  lemma {:induction false} AtPriceRemove(s: seq<Order>, id: OrderID, p: int)
    requires Distinct(s)
    ensures AtPrice(Remove(s, id), p) == Remove(AtPrice(s, p), id)
  {
    if s != [] {
      DistinctTail(s);
      var q := AtPrice(s[1..], p);
      if s[0].id == id {
        if s[0].price != p {
          assert AtPrice(s, p) == q;
          RemoveAbsent(q, id) by {
            forall j | 0 <= j < |q| ensures q[j].id != id {
              AtPriceElems(s[1..], p, j);
              var k :| 0 <= k < |s[1..]| && s[1..][k] == q[j];
              assert s[1..][k].id in Ids(s[1..]);
            }
          }
        } else {
          assert AtPrice(s, p)[1..] == q;
        }
      } else {
        AtPriceRemove(s[1..], id, p);
        assert Remove(s, id)[1..] == Remove(s[1..], id);
        if s[0].price == p {
          assert AtPrice(s, p)[1..] == q;
        } else {
          assert AtPrice(s, p) == q;
        }
      }
    }
  }

  lemma RemoveAbsent(s: seq<Order>, id: OrderID)
    requires forall j :: 0 <= j < |s| ==> s[j].id != id
    ensures Remove(s, id) == s
  {
  }

  lemma {:induction false} AtPriceReplace(s: seq<Order>, o: Order, p: int)
    requires forall k :: 0 <= k < |s| && s[k].id == o.id ==> s[k].price == o.price
    ensures AtPrice(Replace(s, o), p) == Replace(AtPrice(s, p), o)
    requires Distinct(s)
  {
    if s != [] {
      DistinctTail(s);
      var q := AtPrice(s[1..], p);
      if s[0].id == o.id {
        assert Replace(s, o)[1..] == s[1..];
        if s[0].price == p {
          assert AtPrice(s, p)[1..] == q;
        } else {
          assert AtPrice(s, p) == q;
          ReplaceAbsent(q, o) by {
            forall j | 0 <= j < |q| ensures q[j].id != o.id {
              AtPriceElems(s[1..], p, j);
              var k :| 0 <= k < |s[1..]| && s[1..][k] == q[j];
              assert s[1..][k].id in Ids(s[1..]);
            }
          }
        }
      } else {
        AtPriceReplace(s[1..], o, p);
        assert Replace(s, o)[1..] == Replace(s[1..], o);
        if s[0].price == p {
          assert AtPrice(s, p)[1..] == q;
        } else {
          assert AtPrice(s, p) == q;
        }
      }
    }
  }

  lemma ReplaceAbsent(s: seq<Order>, o: Order)
    requires forall j :: 0 <= j < |s| ==> s[j].id != o.id
    ensures Replace(s, o) == s
  {
  }

  // ----- what insertion, removal and replacement do to a side -----

  lemma {:induction false} RemoveAt(s: seq<Order>, i: int)
    requires 0 <= i < |s| && Distinct(s)
    ensures Remove(s, s[i].id) == s[..i] + s[i + 1..]
  {
    if i > 0 {
      DistinctTail(s);
      assert s[i] == s[1..][i - 1];
      assert s[0].id != s[i].id;
      RemoveAt(s[1..], i - 1);
      assert [s[0]] + (s[1..][..i - 1] + s[1..][i..]) == s[..i] + s[i + 1..];
    }
  }

  lemma {:induction false} ReplaceAt(s: seq<Order>, i: int, o: Order)
    requires 0 <= i < |s| && Distinct(s) && o.id == s[i].id
    ensures Replace(s, o) == s[i := o]
  {
    if i > 0 {
      DistinctTail(s);
      assert s[i] == s[1..][i - 1];
      assert s[0].id != s[i].id;
      ReplaceAt(s[1..], i - 1, o);
      assert [s[0]] + s[1..][i - 1 := o] == s[i := o];
    }
  }

  /** Insertion splits the side: not-worse prices stay ahead, strictly worse ones fall behind. */
  lemma {:induction false} InsertSplits(side: Side, s: seq<Order>, o: Order) returns (k: nat)
    requires Sorted(side, s)
    ensures k <= |s| && Insert(side, s, o) == s[..k] + [o] + s[k..]
    ensures forall i :: 0 <= i < k ==> !Better(side, o.price, s[i].price)
    ensures forall i :: k <= i < |s| ==> Better(side, o.price, s[i].price)
  {
    if s == [] || Better(side, o.price, s[0].price) {
      k := 0;
    } else {
      SortedTail(side, s);
      var j := InsertSplits(side, s[1..], o);
      k := j + 1;
      assert [s[0]] + (s[1..][..j] + [o] + s[1..][j..]) == s[..k] + [o] + s[k..];
      forall i | 0 <= i < k ensures !Better(side, o.price, s[i].price) {
        if i > 0 { assert s[i] == s[1..][i - 1]; }
      }
      forall i | k <= i < |s| ensures Better(side, o.price, s[i].price) {
        assert s[i] == s[1..][i - 1];
      }
    }
  }

  lemma {:induction false} IdsInsert(side: Side, s: seq<Order>, o: Order)
    ensures Ids(Insert(side, s, o)) == Ids(s) + {o.id}
  {
    var t := Insert(side, s, o);
    IdsCons(t);
    if s == [] || Better(side, o.price, s[0].price) {
      assert t[1..] == s;
    } else {
      assert t[1..] == Insert(side, s[1..], o);
      IdsInsert(side, s[1..], o);
      IdsCons(s);
    }
  }

  lemma InsertWellFormed(side: Side, s: seq<Order>, o: Order)
    requires WellFormed(side, s) && Restable(side, o) && o.id !in Ids(s)
    ensures WellFormed(side, Insert(side, s, o))
    ensures Ids(Insert(side, s, o)) == Ids(s) + {o.id}
  {
    IdsInsert(side, s, o);
    var k := InsertSplits(side, s, o);
    SplitSorted(side, s, o, k);
    SplitDistinct(s, o, k);
    hide Sorted, Distinct;
  }

  lemma SplitDistinct(s: seq<Order>, o: Order, k: nat)
    requires k <= |s| && Distinct(s) && o.id !in Ids(s)
    ensures Distinct(s[..k] + [o] + s[k..])
  {
    forall i | 0 <= i < |s| ensures s[i].id != o.id {
      assert s[i].id in Ids(s);
    }
  }

  lemma SplitSorted(side: Side, s: seq<Order>, o: Order, k: nat)
    requires k <= |s| && Sorted(side, s)
    requires forall i :: 0 <= i < k ==> !Better(side, o.price, s[i].price)
    requires forall i :: k <= i < |s| ==> Better(side, o.price, s[i].price)
    ensures Sorted(side, s[..k] + [o] + s[k..])
  {
  }

  lemma HasIds(s: seq<Order>)
    ensures forall o :: o in s ==> o.id in Ids(s)
  {
  }

  lemma FindIndex(s: seq<Order>, id: OrderID) returns (i: int)
    requires id in Ids(s)
    ensures 0 <= i < |s| && s[i].id == id && Find(s, id) == Some(s[i])
    ensures Distinct(s) ==> forall j :: 0 <= j < |s| && s[j].id == id ==> j == i
  {
    if s[0].id == id {
      i := 0;
    } else {
      IdsCons(s);
      i := FindIndex(s[1..], id);
      assert s[i + 1] == s[1..][i];
      i := i + 1;
    }
  }

  lemma FindAbsent(s: seq<Order>, id: OrderID)
    ensures Find(s, id) == None <==> id !in Ids(s)
    ensures id !in Ids(s) ==> Remove(s, id) == s
  {
    if s != [] {
      IdsCons(s);
    }
  }

  lemma CutSorted(side: Side, s: seq<Order>, i: int)
    requires 0 <= i < |s| && Sorted(side, s) && Distinct(s)
    ensures Sorted(side, s[..i] + s[i + 1..]) && Distinct(s[..i] + s[i + 1..])
  {
  }

  lemma RemoveWellFormed(side: Side, s: seq<Order>, id: OrderID)
    requires WellFormed(side, s)
    ensures WellFormed(side, Remove(s, id))
    ensures Ids(Remove(s, id)) == Ids(s) - {id}
  {
    if id in Ids(s) {
      var i := FindIndex(s, id);
      RemoveAt(s, i);
      var t := Remove(s, id);
      CutSorted(side, s, i);
      hide Sorted, Distinct;
      assert forall j :: 0 <= j < |t| ==> t[j] == if j < i then s[j] else s[j + 1];
      forall x | x in Ids(s) - {id} ensures x in Ids(t) {
        var j :| 0 <= j < |s| && s[j].id == x;
        assert t[if j < i then j else j - 1].id == x;
      }
    } else {
      FindAbsent(s, id);
    }
  }

  lemma ReplaceWellFormed(side: Side, s: seq<Order>, i: int, o: Order)
    requires WellFormed(side, s) && Restable(side, o)
    requires 0 <= i < |s| && s[i].id == o.id && s[i].price == o.price
    ensures WellFormed(side, Replace(s, o)) && Ids(Replace(s, o)) == Ids(s)
  {
    ReplaceAt(s, i, o);
    var t := Replace(s, o);
    forall x | x in Ids(s) ensures x in Ids(t) {
      var j :| 0 <= j < |s| && s[j].id == x;
      assert t[j].id == x;
    }
  }

  // ----- whole-book operations -----

  function Lookup(b: Book, id: OrderID): Option<Order> {
    match Find(b.bids, id)
    case Some(o) => Some(o)
    case None => Find(b.asks, id)
  }

  /** The book with o resting behind its price. */
  function Rest(b: Book, o: Order): Book {
    b.With(o.side, Insert(o.side, b.On(o.side), o))
  }

  /** The book without the resting order o. */
  function Withdraw(b: Book, o: Order): Book {
    b.With(o.side, Remove(b.On(o.side), o.id))
  }

  /** The book with a resting order's new value at its old place. */
  function Revalue(b: Book, o: Order): Book {
    b.With(o.side, Replace(b.On(o.side), o))
  }

  lemma LookupFinds(b: Book, id: OrderID)
    requires ValidBook(b)
    ensures Lookup(b, id) == None <==> id !in Ids(b.bids) + Ids(b.asks)
    ensures Lookup(b, id).Some? ==>
              var o := Lookup(b, id).value;
              o.id == id && Restable(o.side, o) && id in Ids(b.On(o.side)) && Find(b.On(o.side), id) == Some(o)
  {
    FindAbsent(b.bids, id);
    FindAbsent(b.asks, id);
    if id in Ids(b.bids) {
      var i := FindIndex(b.bids, id);
    } else if id in Ids(b.asks) {
      var i := FindIndex(b.asks, id);
    }
  }

  /**
   * Resting an order keeps a book valid exactly when its identity is new and it has an identity and a
   * positive amount. With an identity that rests already, two orders share it, and the one index entry it
   * has can name only one of them.
   */
  lemma RestValidIff(b: Book, o: Order)
    requires ValidBook(b)
    ensures ValidBook(Rest(b, o)) <==> Restable(o.side, o) && o.id !in Ids(b.bids) + Ids(b.asks)
  {
    var s, other := b.On(o.side), b.On(o.side.Opposite());
    var t := Insert(o.side, s, o);
    var k := InsertSplits(o.side, s, o);
    assert t[k] == o;
    IdsInsert(o.side, s, o);
    if o.id in Ids(s) {
      var i := FindIndex(s, o.id);
      assert t[k].id == t[if i < k then i else i + 1].id;
    } else if Restable(o.side, o) && o.id !in Ids(other) {
      InsertWellFormed(o.side, s, o);
    }
  }

  /** The outcome of an amendment that changes something. */
  datatype Edit = Edit(before: Order, after: Order, requiresRematch: bool)

  /** What an amendment request does to the order it names; None when nothing is found or changes. */
  function EditOf(b: Book, req: EditOrderRequest, recordedAt: Time): Option<Edit> {
    match Lookup(b, req.orderID)
    case None => None
    case Some(o) =>
      var amount := if req.amount.Some? then req.amount.value else o.amount;
      if o.price == req.price && o.amount == amount then None
      else Some(Edit(o, o.(price := req.price, amount := amount, timestamp := recordedAt), o.price != req.price))
  }

  /**
   * A new price takes the order off the book until it is matched again, a larger amount sends it to
   * the back of its queue, a smaller one keeps its place.
   */
  function ApplyEdit(b: Book, e: Edit): Book {
    if e.requiresRematch then Withdraw(b, e.before)
    else if e.after.amount > e.before.amount then Rest(Withdraw(b, e.before), e.after)
    else Revalue(b, e.after)
  }

  /** The amount an amendment asks for: the one it gives, or the one the order has. */
  function RequestedAmount(req: EditOrderRequest, o: Order): int {
    match req.amount
    case None => o.amount
    case Some(amount) => amount
  }

  /**
   * An amendment takes place exactly when an order of the requested identity rests and its price, or an
   * amount that is given, differs; the order then has the requested price, the requested amount and the
   * time of the request, and nothing else about it changes.
   */
  lemma EditIs(b: Book, req: EditOrderRequest, recordedAt: Time)
    requires ValidBook(b)
    ensures EditOf(b, req, recordedAt).Some? <==>
              exists o :: (o in b.bids || o in b.asks) && o.id == req.orderID
                          && (o.price != req.price || (req.amount.Some? && o.amount != req.amount.value))
    ensures EditOf(b, req, recordedAt).Some? ==>
              var e := EditOf(b, req, recordedAt).value;
              && (e.before in b.bids || e.before in b.asks) && e.before.id == req.orderID
              && e.after == e.before.(price := req.price, amount := RequestedAmount(req, e.before), timestamp := recordedAt)
              && (e.requiresRematch <==> e.before.price != req.price)
  {
    LookupFinds(b, req.orderID);
    forall o | (o in b.bids || o in b.asks) && o.id == req.orderID ensures Lookup(b, req.orderID) == Some(o) {
      LookupIs(b, o);
    }
    if Lookup(b, req.orderID).Some? {
      var o := Lookup(b, req.orderID).value;
      var i := FindIndex(b.On(o.side), o.id);
      assert b.On(o.side)[i] == o;
    }
    hide Lookup;
  }

  lemma LookupIs(b: Book, o: Order)
    requires ValidBook(b) && (o in b.bids || o in b.asks)
    ensures Lookup(b, o.id) == Some(o)
  {
    var side := if o in b.bids then Bid else Ask;
    var s := b.On(side);
    var k :| 0 <= k < |s| && s[k] == o;
    assert o.id in Ids(s);
    var i := FindIndex(s, o.id);
    assert i == k;
    FindAbsent(b.bids, o.id);
  }

  /** An amendment keeps a book valid exactly when the order leaves it to be rematched or keeps a positive amount. */
  lemma EditValidIff(b: Book, req: EditOrderRequest, recordedAt: Time)
    requires ValidBook(b) && EditOf(b, req, recordedAt).Some?
    ensures var e := EditOf(b, req, recordedAt).value;
            ValidBook(ApplyEdit(b, e)) <==> e.requiresRematch || e.after.amount > 0
  {
    var e := EditOf(b, req, recordedAt).value;
    LookupFinds(b, req.orderID);
    var s := b.On(e.before.side);
    RemoveWellFormed(e.before.side, s, e.before.id);
    var i := FindIndex(s, e.before.id);
    if !e.requiresRematch {
      if e.after.amount > e.before.amount {
        RestValidIff(Withdraw(b, e.before), e.after);
      } else {
        ReplaceAt(s, i, e.after);
        assert Replace(s, e.after)[i] == e.after;
        if e.after.amount > 0 {
          ReplaceWellFormed(e.before.side, s, i, e.after);
        }
      }
    }
  }
}
