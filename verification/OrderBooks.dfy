/**
 * The mutable order book: two sides and the index from order identity to list node. Its ghost view
 * is the flat book of module FlatBook, and every operation is proved to be one step on that view.
 */
module OrderBooks {
  import opened Models
  import opened FlatBook
  import opened Levels
  import opened Heaps
  import opened Sides
  import opened Numeric

  // ----- the index -----

  /** Every queued node is what the index holds for its order. */
  ghost predicate NodesIndexed(index: map<OrderID, Element>, nodes: map<int, seq<Element>>) {
    forall p, i :: p in nodes && 0 <= i < |nodes[p]| ==>
      nodes[p][i].value.orderID in index && index[nodes[p][i].value.orderID] == nodes[p][i]
  }

  lemma NothingIndexed()
    ensures NodesIndexed(map[], map[]) && Ids([]) == {}
  {
  }

  lemma NodesIndexedAdd(index: map<OrderID, Element>, nodes: map<int, seq<Element>>, p: int, elem: Element)
    requires NodesIndexed(index, nodes) && elem.value.orderID !in index
    ensures NodesIndexed(index[elem.value.orderID := elem], nodes)
    ensures NodesIndexed(index[elem.value.orderID := elem], nodes[p := QueueAt(nodes, p) + [elem]])
  {
  }

  lemma NodesIndexedRemove(index: map<OrderID, Element>, nodes: map<int, seq<Element>>, p: int, k: nat)
    requires NodesIndexed(index, nodes) && p in nodes && k < |nodes[p]|
    requires forall q, i :: q in nodes && 0 <= i < |nodes[q]| && nodes[q][i].value.orderID == nodes[p][k].value.orderID
                            ==> q == p && i == k
    ensures NodesIndexed(index - {nodes[p][k].value.orderID}, Shortened(nodes, p, Cut(nodes[p], k)))
  {
    CutIs(nodes[p], k);
    var id := nodes[p][k].value.orderID;
    var fewer: map<int, seq<Element>> := Shortened(nodes, p, Cut(nodes[p], k));
    forall q, i | q in fewer && 0 <= i < |fewer[q]|
      ensures fewer[q][i].value.orderID != id && q in nodes && fewer[q][i] in nodes[q]
    {
      if q == p {
        assert fewer[q][i] == nodes[p][if i < k then i else i + 1];
      }
    }
  }

  lemma NodesIndexedOther(index: map<OrderID, Element>, nodes: map<int, seq<Element>>, id: OrderID)
    requires NodesIndexed(index, nodes)
    requires forall q, i :: q in nodes && 0 <= i < |nodes[q]| ==> nodes[q][i].value.orderID != id
    ensures NodesIndexed(index - {id}, nodes)
  {
  }

  lemma WithdrawValid(b: Book, o: Order)
    requires ValidBook(b) && o.id in Ids(b.On(o.side))
    ensures ValidBook(Withdraw(b, o))
    ensures Ids(Withdraw(b, o).bids) + Ids(Withdraw(b, o).asks) == Ids(b.bids) + Ids(b.asks) - {o.id}
  {
    RemoveWellFormed(o.side, b.On(o.side), o.id);
  }

  lemma EatenIds(s: seq<Order>, t: int)
    requires s != [] && Distinct(s)
    ensures Ids(Eaten(s, t)) == if s[0].amount <= t then Ids(s) - {s[0].id} else Ids(s)
  {
    DistinctTail(s);
    var e := Eaten(s, t);
    if s[0].amount > t {
      IdsCons(e);
      assert e[1..] == s[1..];
    }
  }

  class OrderBook {
    const ticker: string
    const precision: Precision
    const bids: BookSide
    const asks: BookSide
    var index: map<OrderID, Element>

    function On(side: Side): BookSide {
      if side == Bid then bids else asks
    }

    /** The abstract value of the book. */
    ghost function View(): Book
      reads bids, asks
    {
      Book(bids.view, asks.view)
    }

    ghost function Repr(): set<object>
      reads this, bids, asks
    {
      {this} + bids.Repr() + asks.Repr()
    }

    /** One side is consistent and the index knows its nodes. */
    ghost predicate SideOK(side: Side)
      reads this, On(side), On(side).heap, On(side).heap.levels`index, On(side).parts
    {
      On(side).side == side && On(side).Valid() && NodesIndexed(index, On(side).nodes)
    }

    /** The two sides share no object, and neither uses this one. */
    ghost predicate Separate()
      reads this, bids, asks
    {
      && bids != asks && bids.heap != asks.heap
      && this !in bids.parts && this !in asks.parts
      && bids !in asks.parts && bids.heap !in asks.parts && asks !in bids.parts && asks.heap !in bids.parts
      && forall o :: o in bids.parts ==> o !in asks.parts
    }

    ghost predicate Valid()
      reads this, bids, asks, bids.heap, asks.heap, bids.heap.levels`index, asks.heap.levels`index, bids.parts, asks.parts
    {
      && Separate()
      && SideOK(Bid) && SideOK(Ask)
      && Ids(bids.view) !! Ids(asks.view)
      && index.Keys == Ids(bids.view) + Ids(asks.view)
    }

    constructor (ticker: string, precision: Precision)
      ensures Valid() && fresh(Repr()) && View() == Book([], [])
      ensures this.ticker == ticker && this.precision == precision
    {
      hide BookSide.Valid, NodesIndexed, Ids;
      NothingIndexed();
      this.ticker, this.precision := ticker, precision;
      bids := new BookSide(Bid);
      asks := new BookSide(Ask);
      index := map[];
    }

    /** What a valid book shows is a valid flat book. */
    lemma ViewIsValid()
      requires Valid()
      ensures ValidBook(View())
    {
    }

    /** An indexed order sits in the queue of its own side and price, at the node the index holds. */
    lemma Locate(id: OrderID) returns (k: nat)
      requires Valid() && id in index
      ensures var o := index[id].value;
              var s := On(o.position);
              && o.orderID == id && o in s.parts
              && o.price in s.levels && s.levels[o.price].price == o.price
              && s.levels[o.price] in s.parts && s.levels[o.price].queue in s.parts
              && o.price in s.nodes && k < |s.nodes[o.price]|
              && s.nodes[o.price] == s.levels[o.price].queue.elems && s.nodes[o.price][k] == index[id]
              && id in Ids(s.view) && Find(s.view, id) == Some(o.Snapshot())
              && Lookup(View(), id) == Some(o.Snapshot())
    {
      var side := if id in Ids(bids.view) then Bid else Ask;
      var s := On(side);
      var i := FindIndex(s.view, id);
      k := AtPriceHas(s.view, i);
      var p := s.view[i].price;
      assert AtPrice(s.view, p) == QueueAt(s.queues, p);
      assert s.queues[p][k] == s.view[i];
      s.LevelFacts(p, s.queues, s.nodes);
      assert s.nodes[p][k].value.Snapshot() == s.view[i];
      FindAbsent(bids.view, id);
    }

    /** Queues an order behind its price. */
    method AddOrder(order: BookOrder)
      requires Valid() && Restable(order.position, order.Snapshot()) && order.orderID !in index
      modifies Repr()
      ensures Valid() && fresh(Repr() - old(Repr()) - {order}) && old(Repr()) <= Repr()
      ensures View() == Rest(old(View()), order.Snapshot()) && order.Snapshot() == old(order.Snapshot())
    {
      hide BookSide.Valid, NodesIndexed, Ids;
      bids.Footprint();
      asks.Footprint();
      var s := On(order.position);
      IdsInsert(order.position, s.view, order.Snapshot());
      assert order !in On(order.position.Opposite()).parts;
      hide Insert, BookSide.OwnOrders;
      ghost var bidNodes, askNodes := bids.nodes, asks.nodes;
      var elem := s.Add(order);
      NodesIndexedAdd(index, bidNodes, order.price, elem);
      NodesIndexedAdd(index, askNodes, order.price, elem);
      index := index[order.orderID := elem];
      assert SideOK(order.position);
      assert SideOK(order.position.Opposite());
    }

    /** No other node carries the identity of an indexed order. */
    lemma UniqueNode(id: OrderID, side: Side, q: int, i: nat)
      requires Valid() && id in index && q in On(side).nodes && i < |On(side).nodes[q]|
      requires On(side).nodes[q][i].value.orderID == id
      ensures side == index[id].value.position && q == index[id].value.price
      ensures i < |AtPrice(On(side).view, q)| && AtPrice(On(side).view, q)[i] == index[id].value.Snapshot()
    {
      var s := On(side);
      assert SideOK(side);
      assert s.nodes[q][i] == index[id];
      s.LevelFacts(q, s.queues, s.nodes);
      assert AtPrice(s.view, q) == QueueAt(s.queues, q);
      AtPriceElems(s.view, q, i);
    }

    lemma RemovedFromIndex(id: OrderID, p: int, k: nat)
      requires Valid() && id in index
      requires var s := On(index[id].value.position); p in s.nodes && k < |s.nodes[p]| && s.nodes[p][k] == index[id]
      ensures var s := On(index[id].value.position);
              NodesIndexed(index - {id}, Shortened(s.nodes, p, Cut(s.nodes[p], k)))
      ensures NodesIndexed(index - {id}, On(index[id].value.position.Opposite()).nodes)
    {
      var side := index[id].value.position;
      var s, other := On(side), On(side.Opposite());
      assert index[id].value.orderID == id by { var l := Locate(id); }
      assert SideOK(side) && SideOK(side.Opposite());
      forall q, i | q in s.nodes && 0 <= i < |s.nodes[q]| && s.nodes[q][i].value.orderID == id
        ensures q == p && i == k
      {
        UniqueNode(id, side, q, i);
        UniqueNode(id, side, p, k);
        AtPriceDistinct(s.view, p);
      }
      NodesIndexedRemove(index, s.nodes, p, k);
      forall q, i | q in other.nodes && 0 <= i < |other.nodes[q]| ensures other.nodes[q][i].value.orderID != id {
        if other.nodes[q][i].value.orderID == id {
          UniqueNode(id, side.Opposite(), q, i);
        }
      }
      NodesIndexedOther(index, other.nodes, id);
    }

    lemma BeforeRemoval(id: OrderID) returns (k: nat)
      requires Valid() && id in index
      ensures var o := index[id].value;
              var s := On(o.position);
              && o.orderID == id && o.price in s.levels && s.levels[o.price].price == o.price
              && s.levels[o.price] in s.parts && s.levels[o.price].queue in s.parts
              && k < |s.levels[o.price].queue.elems| && s.levels[o.price].queue.elems[k] == index[id]
              && o.price in s.nodes && k < |s.nodes[o.price]|
              && NodesIndexed(index - {id}, Shortened(s.nodes, o.price, Cut(s.nodes[o.price], k)))
              && NodesIndexed(index - {id}, On(o.position.Opposite()).nodes)
      ensures var o := index[id].value.Snapshot();
              Lookup(View(), id) == Some(o) && o.id == id && Restable(o.side, o) &&
              var b := Withdraw(View(), o);
              Ids(b.bids) !! Ids(b.asks) && Ids(b.bids) + Ids(b.asks) == (index - {id}).Keys
    {
      k := Locate(id);
      RemovedFromIndex(id, index[id].value.price, k);
      ViewIsValid();
      LookupFinds(View(), id);
      WithdrawValid(View(), index[id].value.Snapshot());
    }

    /** Takes an indexed order out of its queue, its level if that ran empty, and the index. */
    method RemoveElement(lvl: PriceLevel, elem: Element)
      requires Valid() && elem.value.orderID in index && index[elem.value.orderID] == elem
      requires elem.value.price in On(elem.value.position).levels && On(elem.value.position).levels[elem.value.price] == lvl
      modifies this, On(elem.value.position), On(elem.value.position).heap, On(elem.value.position).heap.Members()`index
      modifies lvl`totalAmount, lvl.queue
      ensures Valid() && Repr() == old(Repr())
      ensures View() == Withdraw(old(View()), elem.value.Snapshot())
      ensures index == old(index) - {elem.value.orderID}
    {
      hide BookSide.Valid, NodesIndexed, Ids, BookSide.OwnOrders, Remove, Shortened, Cut;
      var s := On(elem.value.position);
      ghost var k := BeforeRemoval(elem.value.orderID);
      bids.Footprint();
      asks.Footprint();
      s.Detach(lvl, elem, k);
      Forget(elem.value.orderID);
      assert SideOK(elem.value.position);
      assert SideOK(elem.value.position.Opposite());
    }

    /** Cancels a resting order and returns its last value; None when the index does not know it. */
    method RemoveOrder(orderID: OrderID) returns (removed: Option<Order>)
      requires Valid()
      modifies Repr()
      ensures Valid() && Repr() == old(Repr())
      ensures removed == Lookup(old(View()), orderID)
      ensures View() == if removed.None? then old(View()) else Withdraw(old(View()), removed.value)
    {
      hide BookSide.Valid, NodesIndexed, BookSide.OwnOrders, Withdraw;
      if orderID !in index {
        LookupFinds(View(), orderID) by { ViewIsValid(); }
        return None;
      }
      var elem := index[orderID];
      ghost var k := Locate(orderID);
      bids.Footprint();
      asks.Footprint();
      var lvl := On(elem.value.position).levels[elem.value.price];
      removed := Some(elem.value.Snapshot());
      RemoveElement(lvl, elem);
    }

    /** Rewrites a detached order. */
    method Rewrite(order: BookOrder, price: int, amount: int, timestamp: Time)
      requires Valid() && order.orderID !in index
      modifies order
      ensures Valid()
      ensures order.Snapshot() == old(order.Snapshot()).(price := price, amount := amount, timestamp := timestamp)
    {
      hide BookSide.Valid, NodesIndexed;
      var s := On(order.position);
      On(order.position.Opposite()).Footprint();
      assert order !in On(order.position.Opposite()).parts;
      assert order.orderID !in Ids(s.view);
      hide Ids, BookSide.OwnOrders;
      s.Rewrite(order, price, amount, timestamp);
      assert SideOK(order.position);
      assert SideOK(order.position.Opposite());
    }

    /** The in-place part of an amendment: a smaller amount at the same price. */
    method Decrease(lvl: PriceLevel, elem: Element, amount: int, timestamp: Time)
      requires Valid() && elem.value.orderID in index && index[elem.value.orderID] == elem
      requires elem.value.price in On(elem.value.position).levels && On(elem.value.position).levels[elem.value.price] == lvl
      requires 0 < amount <= MAX_INT64
      modifies On(elem.value.position), lvl`totalAmount, elem.value`amount, elem.value`timestamp
      ensures Valid() && Repr() == old(Repr())
      ensures elem.value.Snapshot() == old(elem.value.Snapshot()).(amount := amount, timestamp := timestamp)
      ensures View() == Revalue(old(View()), elem.value.Snapshot())
    {
      hide BookSide.Valid, NodesIndexed, BookSide.OwnOrders;
      var s := On(elem.value.position);
      ghost var k := Locate(elem.value.orderID);
      bids.Footprint();
      asks.Footprint();
      ReplaceIds(s, elem.value.orderID, elem.value.Snapshot().(amount := amount, timestamp := timestamp));
      hide Replace, Ids;
      s.Decrease(lvl, elem.value, amount, timestamp, k);
      assert SideOK(elem.value.position);
      assert SideOK(elem.value.position.Opposite());
    }

    lemma ReplaceIds(s: BookSide, id: OrderID, o: Order)
      requires s.Valid() && id in Ids(s.view) && o.id == id
      ensures Ids(Replace(s.view, o)) == Ids(s.view)
    {
      var i := FindIndex(s.view, id);
      ReplaceAt(s.view, i, o);
      var t := Replace(s.view, o);
      forall x | x in Ids(s.view) ensures x in Ids(t) {
        var j :| 0 <= j < |s.view| && s.view[j].id == x;
        assert t[j].id == x;
      }
    }

    /** The detaching part of an amendment: the order leaves the book and takes its new values. */
    method Pull(lvl: PriceLevel, elem: Element, price: int, amount: int, timestamp: Time)
      requires Valid() && elem.value.orderID in index && index[elem.value.orderID] == elem
      requires elem.value.price in On(elem.value.position).levels && On(elem.value.position).levels[elem.value.price] == lvl
      modifies Repr()
      ensures Valid() && Repr() == old(Repr()) && index == old(index) - {elem.value.orderID}
      ensures elem.value.Snapshot() == old(elem.value.Snapshot()).(price := price, amount := amount, timestamp := timestamp)
      ensures View() == Withdraw(old(View()), old(elem.value.Snapshot()))
    {
      hide BookSide.Valid, NodesIndexed, BookSide.OwnOrders, Withdraw;
      ghost var k := Locate(elem.value.orderID);
      bids.Footprint();
      asks.Footprint();
      RemoveElement(lvl, elem);
      Rewrite(elem.value, price, amount, timestamp);
    }

    /** The requeueing part of an amendment: a larger amount at the same price goes to the back. */
    method Increase(lvl: PriceLevel, elem: Element, amount: int, timestamp: Time)
      requires Valid() && elem.value.orderID in index && index[elem.value.orderID] == elem
      requires elem.value.price in On(elem.value.position).levels && On(elem.value.position).levels[elem.value.price] == lvl
      requires 0 < amount <= MAX_INT64 && !elem.value.orderID.IsEmpty()
      modifies Repr()
      ensures Valid() && fresh(Repr() - old(Repr())) && old(Repr()) <= Repr()
      ensures elem.value.Snapshot() == old(elem.value.Snapshot()).(amount := amount, timestamp := timestamp)
      ensures View() == Rest(Withdraw(old(View()), old(elem.value.Snapshot())), elem.value.Snapshot())
    {
      hide BookSide.Valid, NodesIndexed, BookSide.OwnOrders, Withdraw, Rest;
      ghost var k := Locate(elem.value.orderID);
      Pull(lvl, elem, elem.value.price, amount, timestamp);
      AddOrder(elem.value);
    }

    /** Amends a resting order; None when nothing is found or nothing changes. */
    method EditOrderAt(req: EditOrderRequest, recordedAt: Time) returns (result: Option<Edit>)
      requires Valid()
      requires var e := EditOf(View(), req, recordedAt); e.Some? && !e.value.requiresRematch ==> e.value.after.amount > 0
      modifies Repr()
      ensures Valid() && fresh(Repr() - old(Repr())) && old(Repr()) <= Repr()
      ensures result == EditOf(old(View()), req, recordedAt)
      ensures result.Some? <==>
                exists o :: (o in old(View()).bids || o in old(View()).asks) && o.id == req.orderID
                            && (o.price != req.price || (req.amount.Some? && o.amount != req.amount.value))
      ensures result.Some? ==>
                var before, after := result.value.before, result.value.after;
                && (before in old(View()).bids || before in old(View()).asks) && before.id == req.orderID
                && after == before.(price := req.price, amount := RequestedAmount(req, before), timestamp := recordedAt)
      ensures View() == if result.None? then old(View()) else ApplyEdit(old(View()), result.value)
    {
      hide BookSide.Valid, NodesIndexed, BookSide.OwnOrders, Withdraw, Rest, Revalue;
      EditIs(View(), req, recordedAt) by { ViewIsValid(); }
      if req.orderID !in index {
        LookupFinds(View(), req.orderID) by { ViewIsValid(); }
        return None;
      }
      var elem := index[req.orderID];
      var existing := elem.value;
      ghost var k := Locate(req.orderID);
      bids.Footprint();
      asks.Footprint();
      var lvl := On(existing.position).levels[existing.price];
      var amount := if req.amount.Some? then req.amount.value else existing.amount;
      var before := existing.Snapshot();
      if existing.price == req.price && existing.amount == amount {
        return None;
      }
      LookupFinds(View(), req.orderID) by { ViewIsValid(); }
      if existing.price != req.price {
        Pull(lvl, elem, req.price, amount, recordedAt);
        return Some(Edit(before, existing.Snapshot(), true));
      }
      if amount > existing.amount {
        Increase(lvl, elem, amount, recordedAt);
      } else {
        Decrease(lvl, elem, amount, recordedAt);
      }
      return Some(Edit(before, existing.Snapshot(), false));
    }

    lemma BeforeConsume(side: Side, t: int)
      requires Valid() && On(side).view != []
      ensures var s := On(side);
              var o := s.view[0];
              && o.id in index && Restable(side, o)
              && Ids(Eaten(s.view, t)) !! Ids(On(side.Opposite()).view)
              && (o.amount > t ==> Ids(Eaten(s.view, t)) == Ids(s.view))
              && (o.amount <= t ==>
                    && Ids(Eaten(s.view, t)) + Ids(On(side.Opposite()).view) == (index - {o.id}).Keys
                    && o.price in s.nodes && s.nodes[o.price] != []
                    && NodesIndexed(index - {o.id}, Shortened(s.nodes, o.price, s.nodes[o.price][1..]))
                    && NodesIndexed(index - {o.id}, On(side.Opposite()).nodes))
    {
      var s := On(side);
      var o := s.view[0];
      assert SideOK(side);
      assert o.id in Ids(s.view);
      EatenIds(s.view, t);
      s.BestLevel();
      assert index[o.id] == s.nodes[o.price][0];
      RemovedFromIndex(o.id, o.price, 0);
      assert Cut(s.nodes[o.price], 0) == s.nodes[o.price][1..];
    }

    /** The part of an execution that one side does alone; the other side and the index do not notice. */
    method TakeFrom(side: Side, lvl: PriceLevel, elem: Element, t: int)
      requires Separate() && On(side).Valid() && On(side.Opposite()).Valid()
      requires On(side).view != [] && lvl.price == On(side).view[0].price
      requires lvl.price in On(side).levels && On(side).levels[lvl.price] == lvl && lvl in On(side).parts && lvl.queue in On(side).parts
      requires lvl.queue.elems != [] && lvl.queue.elems[0] == elem && elem.value in On(side).parts && 0 <= t <= elem.value.amount
      modifies On(side), On(side).heap, On(side).heap.Members()`index, lvl`totalAmount, lvl.queue, elem.value`amount
      ensures Separate() && On(side).Valid() && On(side.Opposite()).Valid() && On(side).parts == old(On(side).parts)
      ensures On(side).view == Eaten(old(On(side).view), t) && elem.value.amount == old(elem.value.amount) - t
      ensures unchanged(On(side.Opposite()))
      ensures On(side).nodes == if old(elem.value.amount) <= t
                                then Shortened(old(On(side).nodes), lvl.price, old(On(side).nodes)[lvl.price][1..]) else old(On(side).nodes)
    {
      hide BookSide.Valid, Eaten, Shortened, BookSide.OwnOrders;
      On(side).Footprint();
      On(side.Opposite()).Footprint();
      On(side).Take(lvl, elem, t);
    }

    /** One execution's effect on the book: t lots leave the first order of a side. */
    method Consume(side: Side, lvl: PriceLevel, elem: Element, t: int)
      requires Valid() && On(side).heap.Peek() == Some(lvl)
      requires lvl.queue.elems != [] && lvl.queue.elems[0] == elem && 0 <= t <= elem.value.amount
      modifies this, On(side), On(side).heap, On(side).heap.Members()`index, lvl`totalAmount, lvl.queue, elem.value`amount
      ensures Valid() && Repr() == old(Repr())
      ensures old(View().On(side)) != [] && View() == old(View()).With(side, Eaten(old(View()).On(side), t))
    {
      hide BookSide.Valid, NodesIndexed, Ids, BookSide.OwnOrders, Eaten, Shortened;
      On(side).BestLevel();
      BeforeConsume(side, t);
      On(side).Footprint();
      TakeFrom(side, lvl, elem, t);
      if elem.value.amount <= 0 {
        Forget(elem.value.orderID);
      }
      assert SideOK(side);
      assert SideOK(side.Opposite());
    }

    /** Takes an identity out of the index; the sides do not notice. */
    method Forget(orderID: OrderID)
      requires Separate() && bids.Valid() && asks.Valid()
      modifies `index
      ensures Separate() && bids.Valid() && asks.Valid() && index == old(index) - {orderID}
    {
      hide BookSide.Valid;
      index := index - {orderID};
    }

    /** What the heap of a side offers first is the first order of the side. */
    lemma BestOf(side: Side)
      requires Valid()
      ensures var s := On(side);
              && Repr() >= {s, s.heap} + s.parts && s.heap.Members() <= s.parts && this in Repr()
              && (s.heap.Peek() == None <==> s.view == [])
              && (s.view != [] ==>
                    var lvl := s.heap.Peek().value;
                    && lvl.price == s.view[0].price && lvl in s.parts && lvl.queue in s.parts
                    && lvl.queue.elems != [] && lvl.queue.elems[0].value in s.parts
                    && lvl.queue.elems[0].value.Snapshot() == s.view[0] && Restable(side, s.view[0]))
    {
      var s := On(side);
      assert SideOK(side);
      s.BestLevel();
      s.Footprint();
    }
  }
}
