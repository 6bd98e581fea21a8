/**
 * One side of the mutable book: the price map and the heap of levels that the source always passes
 * around together. The ghost field queues is its abstract value: the first-in first-out queue at
 * every price that has a level.
 */
module Sides {
  import opened Models
  import opened FlatBook
  import opened Levels
  import opened Heaps

  /** A queue as it may appear at price p: right price and side, positive amounts, distinct identities. */
  ghost predicate QueueOf(side: Side, p: int, s: seq<Order>) {
    && Distinct(s)
    && forall i :: 0 <= i < |s| ==> s[i].price == p && Restable(side, s[i])
  }

  lemma QueueAppend(side: Side, p: int, s: seq<Order>, o: Order)
    requires QueueOf(side, p, s) && o.price == p && Restable(side, o)
    requires forall i :: 0 <= i < |s| ==> s[i].id != o.id
    ensures QueueOf(side, p, s + [o])
  {
  }

  lemma QueueWithout(side: Side, p: int, s: seq<Order>, k: nat)
    requires QueueOf(side, p, s) && k < |s|
    ensures QueueOf(side, p, Cut(s, k))
  {
    CutIs(s, k);
  }

  lemma QueueReplace(side: Side, p: int, s: seq<Order>, k: nat, o: Order)
    requires QueueOf(side, p, s) && k < |s| && o.id == s[k].id && o.price == p && Restable(side, o)
    ensures QueueOf(side, p, s[k := o])
  {
  }

  lemma QueueEaten(side: Side, p: int, s: seq<Order>, t: int)
    requires QueueOf(side, p, s) && s != [] && 0 <= t
    ensures QueueOf(side, p, Eaten(s, t))
  {
  }

  function QueueAt<T>(queues: map<int, seq<T>>, p: int): seq<T> {
    if p in queues then queues[p] else []
  }

  /** The per-price map after one queue became s: no entry is kept for an empty queue. */
  function Shortened<T>(m: map<int, seq<T>>, p: int, s: seq<T>): map<int, seq<T>> {
    if s == [] then m - {p} else m[p := s]
  }

  // ----- the flat side and its per-price queues -----

  /** The queue at every price is what the flat side lists at that price. */
  ghost predicate Represents(s: seq<Order>, queues: map<int, seq<Order>>) {
    forall p :: AtPrice(s, p) == QueueAt(queues, p)
  }

  lemma RepresentsInsert(side: Side, s: seq<Order>, queues: map<int, seq<Order>>, o: Order)
    requires Represents(s, queues) && Sorted(side, s)
    ensures Represents(Insert(side, s, o), queues[o.price := QueueAt(queues, o.price) + [o]])
  {
    forall p ensures AtPrice(Insert(side, s, o), p) == QueueAt(queues[o.price := QueueAt(queues, o.price) + [o]], p) {
      AtPriceInsert(side, s, o, p);
    }
  }

  /** An order found in the queue at p is absent from every other queue. */
  lemma OnlyAtItsPrice(s: seq<Order>, p: int, k: nat, q: int)
    requires Distinct(s) && k < |AtPrice(s, p)| && q != p
    ensures forall j :: 0 <= j < |AtPrice(s, q)| ==> AtPrice(s, q)[j].id != AtPrice(s, p)[k].id
  {
    forall j | 0 <= j < |AtPrice(s, q)| ensures AtPrice(s, q)[j].id != AtPrice(s, p)[k].id {
      AtPriceElems(s, q, j);
      AtPriceElems(s, p, k);
      var a :| 0 <= a < |s| && s[a] == AtPrice(s, q)[j];
      var b :| 0 <= b < |s| && s[b] == AtPrice(s, p)[k];
    }
  }

  lemma RepresentsRemove(s: seq<Order>, queues: map<int, seq<Order>>, p: int, k: nat)
    requires Represents(s, queues) && Distinct(s) && p in queues && k < |queues[p]|
    ensures Represents(Remove(s, queues[p][k].id), Shortened(queues, p, Cut(queues[p], k)))
  {
    var id := queues[p][k].id;
    assert AtPrice(s, p) == queues[p];
    forall q ensures AtPrice(Remove(s, id), q) == QueueAt(Shortened(queues, p, Cut(queues[p], k)), q) {
      AtPriceRemove(s, id, q);
      if q == p {
        AtPriceDistinct(s, p);
        RemoveAt(queues[p], k);
        CutIs(queues[p], k);
      } else {
        OnlyAtItsPrice(s, p, k, q);
        RemoveAbsent(AtPrice(s, q), id);
      }
    }
  }

  lemma RepresentsReplace(s: seq<Order>, queues: map<int, seq<Order>>, p: int, k: nat, o: Order)
    requires Represents(s, queues) && Distinct(s) && p in queues && k < |queues[p]|
    requires o.id == queues[p][k].id && o.price == p
    ensures Represents(Replace(s, o), queues[p := queues[p][k := o]])
  {
    assert AtPrice(s, p) == queues[p];
    AtPriceElems(s, p, k);
    forall q ensures AtPrice(Replace(s, o), q) == QueueAt(queues[p := queues[p][k := o]], q) {
      AtPriceReplace(s, o, q);
      if q == p {
        AtPriceDistinct(s, p);
        ReplaceAt(queues[p], k, o);
      } else {
        OnlyAtItsPrice(s, p, k, q);
        ReplaceAbsent(AtPrice(s, q), o);
      }
    }
  }

  lemma RepresentsEaten(s: seq<Order>, queues: map<int, seq<Order>>, t: int)
    requires s != [] && Represents(s, queues)
    ensures var p := s[0].price;
            p in queues && queues[p] != [] && queues[p][0] == s[0] &&
            Represents(Eaten(s, t), Shortened(queues, p, Eaten(queues[p], t)))
  {
    var p := s[0].price;
    assert AtPrice(s, p) == [s[0]] + AtPrice(s[1..], p) == QueueAt(queues, p);
    forall q ensures AtPrice(Eaten(s, t), q) == QueueAt(Shortened(queues, p, Eaten(queues[p], t)), q) {
      assert AtPrice(s, q) == QueueAt(queues, q);
      assert Eaten(s, t)[if s[0].amount <= t then 0 else 1..] == s[1..];
      assert queues[p][1..] == AtPrice(s[1..], p);
    }
  }

  lemma ShortenedTwice<T>(m: map<int, seq<T>>, p: int, s: seq<T>)
    ensures Shortened(m[p := s], p, s) == Shortened(m, p, s)
  {
    assert m[p := s] - {p} == m - {p};
  }

  lemma ViewInsert(side: Side, s: seq<Order>, queues: map<int, seq<Order>>, o: Order)
    requires WellFormed(side, s) && Represents(s, queues) && Restable(side, o) && o.id !in Ids(s)
    ensures WellFormed(side, Insert(side, s, o))
    ensures Represents(Insert(side, s, o), queues[o.price := QueueAt(queues, o.price) + [o]])
    ensures forall i :: 0 <= i < |QueueAt(queues, o.price)| ==> QueueAt(queues, o.price)[i].id != o.id
  {
    InsertWellFormed(side, s, o);
    RepresentsInsert(side, s, queues, o);
    assert AtPrice(s, o.price) == QueueAt(queues, o.price);
    forall i | 0 <= i < |AtPrice(s, o.price)| ensures AtPrice(s, o.price)[i].id != o.id {
      AtPriceElems(s, o.price, i);
    }
  }

  lemma ViewRemove(side: Side, s: seq<Order>, queues: map<int, seq<Order>>, p: int, k: nat)
    requires WellFormed(side, s) && Represents(s, queues) && p in queues && k < |queues[p]|
    ensures WellFormed(side, Remove(s, queues[p][k].id))
    ensures Represents(Remove(s, queues[p][k].id), Shortened(queues, p, Cut(queues[p], k)))
  {
    RemoveWellFormed(side, s, queues[p][k].id);
    RepresentsRemove(s, queues, p, k);
  }

  lemma ViewReplace(side: Side, s: seq<Order>, queues: map<int, seq<Order>>, p: int, k: nat, o: Order)
    requires WellFormed(side, s) && Represents(s, queues) && p in queues && k < |queues[p]|
    requires 0 < o.amount <= MAX_INT64 && o == queues[p][k].(amount := o.amount, timestamp := o.timestamp)
    ensures WellFormed(side, Replace(s, o))
    ensures Represents(Replace(s, o), queues[p := queues[p][k := o]])
  {
    assert AtPrice(s, p) == QueueAt(queues, p);
    AtPriceElems(s, p, k);
    var i :| 0 <= i < |s| && s[i] == queues[p][k];
    ReplaceWellFormed(side, s, i, o);
    RepresentsReplace(s, queues, p, k, o);
  }

  lemma ViewEaten(side: Side, s: seq<Order>, queues: map<int, seq<Order>>, t: int)
    requires WellFormed(side, s) && Represents(s, queues) && s != [] && 0 <= t
    ensures WellFormed(side, Eaten(s, t))
    ensures var p := s[0].price;
            && p in queues && queues[p] != [] && queues[p][0] == s[0]
            && Represents(Eaten(s, t), Shortened(queues, p, Eaten(queues[p], t)))
  {
    WellFormedTail(side, s);
    RepresentsEaten(s, queues, t);
  }

  class BookSide {
    const side: Side
    const heap: PriceHeap
    var levels: map<int, PriceLevel>

    ghost var view: seq<Order> // the abstract value: best price first, first in first out within a price
    ghost var queues: map<int, seq<Order>> // the orders at each price, first in first
    ghost var nodes: map<int, seq<Element>> // the list nodes that carry them
    ghost var parts: set<object> // every level, queue and order this side has used

    ghost predicate Valid()
      reads this, heap, heap.levels`index, parts
    {
      Linked() && WellFormed(side, view) && Represents(view, queues)
    }

    ghost predicate Linked()
      reads this, heap, heap.levels`index, parts
    {
      && this !in parts && heap !in parts
      && LevelsLinked(queues, nodes)
      && HeapLinked({})
      && (forall p :: p in queues ==> queues[p] != [])
      && OwnOrders()
    }

    /** Every order this side has used belongs to this side. */
    ghost predicate OwnOrders()
      reads `parts
    {
      forall o :: o in parts && o is BookOrder ==> (o as BookOrder).position == side
    }

    ghost function Repr(): set<object>
      reads this
    {
      {this, heap} + parts
    }

    /** What a valid side may change lies within its representation. */
    lemma Footprint()
      requires Valid()
      ensures this !in parts && heap !in parts && heap.Members() <= parts && OwnOrders()
    {
    }

    /** The heap holds exactly the levels of the price map, except those in pending. */
    ghost predicate HeapLinked(pending: set<PriceLevel>)
      reads `levels, heap, heap.levels`index
    {
      && heap.side == side && heap.Valid()
      && (forall l :: l in heap.Members() ==> l.price in levels && levels[l.price] == l)
      && (forall l :: l in pending ==> l.price in levels && levels[l.price] == l && l !in heap.Members())
      && (forall p :: p in levels ==> levels[p].price == p && (levels[p] in heap.Members() || levels[p] in pending))
    }

    /** Each level's queue holds exactly the given orders and list nodes of its price. */
    ghost predicate LevelsLinked(queues: map<int, seq<Order>>, nodes: map<int, seq<Element>>)
      reads `levels, `parts, parts
    {
      && this !in parts && heap !in parts
      && levels.Keys == queues.Keys == nodes.Keys
      && (forall p :: p in levels ==> levels[p] in parts && LevelOK(p, queues[p], nodes[p]))
    }

    ghost predicate LevelOK(p: int, orders: seq<Order>, elems: seq<Element>)
      requires p in levels && levels[p] in parts
      reads `levels, `parts, parts
    {
      var l := levels[p];
      && l.price == p && l.queue in parts && l.queue.price == p
      && l.queue.elems == elems
      && (forall e :: e in elems ==> e.value in parts)
      && l.Holds(orders)
      && QueueOf(side, p, orders)
    }

    lemma LevelFacts(p: int, queues: map<int, seq<Order>>, nodes: map<int, seq<Element>>)
      requires LevelsLinked(queues, nodes) && p in levels
      ensures this !in parts && heap !in parts
      ensures p in queues && p in nodes && |queues[p]| == |nodes[p]|
      ensures nodes[p] == levels[p].queue.elems
      ensures levels[p] in parts && levels[p].queue in parts && forall e :: e in nodes[p] ==> e.value in parts
      ensures forall i :: 0 <= i < |queues[p]| ==> nodes[p][i].value.Snapshot() == queues[p][i]
    {
    }

    constructor (side: Side)
      ensures Valid() && fresh(this) && fresh(heap) && parts == {} && this.side == side
      ensures view == [] && nodes == map[]
    {
      this.side := side;
      heap := new PriceHeap(side);
      levels, view, queues, nodes, parts := map[], [], map[], map[], {};
    }

    // ----- one change at a time -----

    /** Creates the level of a price that has none yet; the heap does not know it. */
    method OpenLevel(price: int, ghost queues: map<int, seq<Order>>, ghost nodes: map<int, seq<Element>>)
      returns (lvl: PriceLevel)
      requires LevelsLinked(queues, nodes) && OwnOrders() && price !in levels
      modifies `levels, `parts
      ensures LevelsLinked(queues[price := []], nodes[price := []]) && OwnOrders()
      ensures fresh(parts - old(parts)) && old(parts) <= parts
      ensures fresh(lvl) && lvl.price == price && levels == old(levels)[price := lvl]
    {
      hide PriceLevel.Holds, QueueOf;
      lvl := new PriceLevel(price);
      EmptyLevelOK(lvl);
      PutLevel(lvl);
    }

    /** A level without orders holds none and has nothing to add up. */
    lemma EmptyLevelOK(lvl: PriceLevel)
      requires lvl.queue.elems == [] && lvl.totalAmount == 0
      ensures lvl.Holds([]) && QueueOf(side, lvl.price, [])
    {
    }

    method PutLevel(lvl: PriceLevel)
      modifies `levels, `parts
      ensures levels == old(levels)[lvl.price := lvl] && parts == old(parts) + {lvl, lvl.queue}
    {
      levels := levels[lvl.price := lvl];
      parts := parts + {lvl, lvl.queue};
    }

    twostate lemma OpenedLevelPending(new lvl: PriceLevel)
      requires old(HeapLinked({})) && lvl.price !in old(levels) && levels == old(levels)[lvl.price := lvl]
      requires unchanged(heap) && heap.Valid() && lvl !in heap.levels
      ensures HeapLinked({lvl})
    {
    }

    /** heap.Push of a new level. */
    method PushLevel(lvl: PriceLevel)
      requires HeapLinked({lvl}) && LevelsLinked(queues, nodes)
      modifies heap`levels, heap.Members()`index, lvl`index
      ensures HeapLinked({}) && LevelsLinked(queues, nodes)
    {
      hide PriceHeap.Valid, PriceLevel.Holds, QueueOf;
      heap.HeapPush(lvl);
    }

    /** Puts an order at the back of its level's queue. */
    method Enqueue(lvl: PriceLevel, order: BookOrder, ghost queues: map<int, seq<Order>>, ghost nodes: map<int, seq<Element>>)
      returns (elem: Element)
      requires LevelsLinked(queues, nodes) && order.price in levels && levels[order.price] == lvl && order in parts
      requires Restable(side, order.Snapshot())
      requires forall i :: 0 <= i < |queues[order.price]| ==> queues[order.price][i].id != order.orderID
      modifies lvl`totalAmount, lvl.queue
      ensures fresh(elem) && elem.value == order
      ensures LevelsLinked(queues[order.price := queues[order.price] + [order.Snapshot()]],
                           nodes[order.price := nodes[order.price] + [elem]])
    {
      QueueAppend(side, order.price, queues[order.price], order.Snapshot());
      elem := lvl.Append(order, queues[order.price]);
    }

    /** Unlinks a node from its level's queue, which may become empty. */
    method Unlink(lvl: PriceLevel, elem: Element, ghost queues: map<int, seq<Order>>, ghost nodes: map<int, seq<Element>>,
                  ghost k: nat)
      requires LevelsLinked(queues, nodes) && lvl.price in levels && levels[lvl.price] == lvl
      requires k < |queues[lvl.price]| && lvl.queue.elems[k] == elem
      modifies lvl`totalAmount, lvl.queue
      ensures LevelsLinked(queues[lvl.price := Cut(queues[lvl.price], k)], nodes[lvl.price := Cut(nodes[lvl.price], k)])
    {
      QueueWithout(side, lvl.price, queues[lvl.price], k);
      lvl.Unlink(elem, queues[lvl.price], k);
    }

    /** Changes one queued order's amount in place. */
    method Resize(lvl: PriceLevel, order: BookOrder, amount: int, timestamp: Time,
                  ghost queues: map<int, seq<Order>>, ghost nodes: map<int, seq<Element>>, ghost k: nat)
      requires LevelsLinked(queues, nodes) && lvl.price in levels && levels[lvl.price] == lvl
      requires k < |queues[lvl.price]| && lvl.queue.elems[k].value == order
      requires 0 < amount <= MAX_INT64
      modifies lvl`totalAmount, order`amount, order`timestamp
      ensures LevelsLinked(queues[lvl.price := queues[lvl.price][k := order.Snapshot()]], nodes)
      ensures order.Snapshot() == queues[lvl.price][k].(amount := amount, timestamp := timestamp)
    {
      QueueReplace(side, lvl.price, queues[lvl.price], k,
                   queues[lvl.price][k].(amount := amount, timestamp := timestamp));
      lvl.Resize(order, amount, timestamp, queues[lvl.price], k);
      assert order.Snapshot() == queues[lvl.price][k].(amount := amount, timestamp := timestamp);
    }

    /** Takes t lots from the front order of a level and unlinks it once nothing is left. */
    method TakeFront(lvl: PriceLevel, elem: Element, t: int,
                     ghost queues: map<int, seq<Order>>, ghost nodes: map<int, seq<Element>>)
      requires LevelsLinked(queues, nodes) && lvl.price in levels && levels[lvl.price] == lvl
      requires lvl.queue.elems != [] && lvl.queue.elems[0] == elem && 0 <= t <= elem.value.amount
      requires queues[lvl.price] != []
      modifies lvl`totalAmount, lvl.queue, elem.value`amount
      ensures elem.value.amount == old(elem.value.amount) - t
      ensures LevelsLinked(queues[lvl.price := Eaten(queues[lvl.price], t)],
                           nodes[lvl.price := if old(elem.value.amount) <= t then nodes[lvl.price][1..] else nodes[lvl.price]])
    {
      QueueEaten(side, lvl.price, queues[lvl.price], t);
      assert elem.value.Snapshot() == queues[lvl.price][0];
      hide Eaten;
      lvl.TakeFront(elem, t, queues[lvl.price]);
    }

    /** heap.Remove of a level through its back-pointer. */
    method PopLevel(lvl: PriceLevel, ghost queues: map<int, seq<Order>>, ghost nodes: map<int, seq<Element>>)
      requires HeapLinked({}) && lvl.price in levels && levels[lvl.price] == lvl && LevelsLinked(queues, nodes)
      modifies heap`levels, heap.Members()`index
      ensures HeapLinked({lvl}) && LevelsLinked(queues, nodes)
    {
      hide HeapLinked, PriceHeap.Valid, PriceLevel.Holds, QueueOf;
      PopFromHeap(lvl);
    }

    method PopFromHeap(lvl: PriceLevel)
      requires HeapLinked({}) && lvl.price in levels && levels[lvl.price] == lvl
      modifies heap`levels, heap.Members()`index
      ensures HeapLinked({lvl})
    {
      hide PriceHeap.Valid;
      heap.SlotOf(lvl);
      if 0 <= lvl.index < heap.Len() {
        var popped := heap.HeapRemove(lvl.index);
      }
    }

    method DeleteLevel(lvl: PriceLevel, ghost queues: map<int, seq<Order>>, ghost nodes: map<int, seq<Element>>)
      requires LevelsLinked(queues, nodes) && HeapLinked({lvl})
      modifies `levels
      ensures LevelsLinked(queues - {lvl.price}, nodes - {lvl.price}) && HeapLinked({})
    {
      hide PriceHeap.Valid, PriceLevel.Holds, QueueOf;
      levels := levels - {lvl.price};
    }

    /** dropPriceLevel, called when the queue of the level has run empty. */
    method DropIfEmpty(lvl: PriceLevel)
      requires LevelsLinked(queues, nodes) && HeapLinked({}) && OwnOrders()
      requires lvl.price in levels && levels[lvl.price] == lvl
      requires forall p :: p in queues && p != lvl.price ==> queues[p] != []
      modifies `levels, `queues, `nodes, heap, heap.Members()`index
      ensures Linked()
      ensures queues == Shortened(old(queues), lvl.price, old(queues)[lvl.price])
      ensures nodes == Shortened(old(nodes), lvl.price, old(nodes)[lvl.price])
    {
      hide LevelsLinked, HeapLinked, PriceHeap.Valid;
      LevelFacts(lvl.price, queues, nodes);
      if lvl.queue.Len() == 0 {
        PopLevel(lvl, queues, nodes);
        DeleteLevel(lvl, queues, nodes);
        Record(queues - {lvl.price}, nodes - {lvl.price});
      }
    }

    // ----- the operations of the book on this side -----

    /** AddOrder on this side: opens the level if the price has none, then queues the order last. */
    method Add(order: BookOrder) returns (elem: Element)
      requires Valid() && Restable(side, order.Snapshot()) && order.orderID !in Ids(view)
      modifies this, heap, heap.Members()`index, parts
      ensures Valid() && fresh(parts - old(parts) - {order}) && old(parts) + {order} <= parts
      ensures fresh(elem) && elem.value == order && order.Snapshot() == old(order.Snapshot())
      ensures view == Insert(side, old(view), order.Snapshot())
      ensures nodes == old(nodes)[order.price := QueueAt(old(nodes), order.price) + [elem]]
    {
      hide LevelsLinked, HeapLinked, WellFormed, Represents, Insert, Ids, OwnOrders, QueueAt;
      ViewInsert(side, view, queues, order.Snapshot());
      Open(order.price);
      elem := Append(levels[order.price], order);
      assert queues == old(queues)[order.price := QueueAt(old(queues), order.price) + [order.Snapshot()]];
      ShowView(Insert(side, view, order.Snapshot()));
    }

    ghost method ShowView(orders: seq<Order>)
      modifies `view
      ensures view == orders
    {
      view := orders;
    }

    method Open(price: int)
      requires Linked()
      modifies `levels, `queues, `nodes, `parts, heap`levels, heap.Members()`index
      ensures LevelsLinked(queues, nodes) && HeapLinked({}) && OwnOrders()
      ensures price in levels && levels[price] in parts && levels[price].queue in parts
      ensures fresh(parts - old(parts)) && old(parts) <= parts
      ensures queues == old(queues)[price := QueueAt(old(queues), price)]
      ensures nodes == old(nodes)[price := QueueAt(old(nodes), price)]
    {
      if price !in levels {
        var lvl := OpenLevel(price, queues, nodes);
        OpenedLevelPending(lvl);
        Record(queues[price := []], nodes[price := []]);
        PushLevel(lvl);
      }
    }

    method Append(lvl: PriceLevel, order: BookOrder) returns (elem: Element)
      requires LevelsLinked(queues, nodes) && HeapLinked({}) && OwnOrders()
      requires order.price in levels && levels[order.price] == lvl
      requires Restable(side, order.Snapshot())
      requires forall i :: 0 <= i < |queues[order.price]| ==> queues[order.price][i].id != order.orderID
      modifies `queues, `nodes, `parts, lvl`totalAmount, lvl.queue
      ensures LevelsLinked(queues, nodes) && HeapLinked({}) && OwnOrders() && parts == old(parts) + {order}
      ensures this !in parts && heap !in parts
      ensures fresh(elem) && elem.value == order
      ensures queues == old(queues)[order.price := old(queues)[order.price] + [order.Snapshot()]]
      ensures nodes == old(nodes)[order.price := old(nodes)[order.price] + [elem]]
    {
      hide LevelsLinked;
      Admit(order);
      elem := Enqueue(lvl, order, queues, nodes);
      Record(queues[order.price := queues[order.price] + [order.Snapshot()]],
             nodes[order.price := nodes[order.price] + [elem]]);
    }

    ghost method Record(queues: map<int, seq<Order>>, nodes: map<int, seq<Element>>)
      modifies `queues, `nodes
      ensures this.queues == queues && this.nodes == nodes
    {
      this.queues, this.nodes := queues, nodes;
    }

    ghost method Admit(order: BookOrder)
      requires LevelsLinked(queues, nodes)
      modifies `parts
      ensures LevelsLinked(queues, nodes) && parts == old(parts) + {order}
    {
      parts := parts + {order};
    }

    /** removeElement on this side: unlinks a node and drops the level once its queue is empty. */
    method Detach(lvl: PriceLevel, elem: Element, ghost k: nat)
      requires Valid() && lvl.price in levels && levels[lvl.price] == lvl
      requires k < |lvl.queue.elems| && lvl.queue.elems[k] == elem
      modifies this, heap, heap.Members()`index, lvl`totalAmount, lvl.queue
      ensures Valid() && parts == old(parts)
      ensures view == Remove(old(view), elem.value.orderID)
      ensures nodes == Shortened(old(nodes), lvl.price, Cut(old(nodes)[lvl.price], k))
    {
      hide LevelsLinked, HeapLinked, WellFormed, Represents, Remove, OwnOrders, Cut;
      LevelFacts(lvl.price, queues, nodes);
      ViewRemove(side, view, queues, lvl.price, k);
      ShortenedTwice(queues, lvl.price, Cut(queues[lvl.price], k));
      ghost var shorter := queues[lvl.price := Cut(queues[lvl.price], k)];
      ghost var fewer := nodes[lvl.price := Cut(nodes[lvl.price], k)];
      Unlink(lvl, elem, queues, nodes, k);
      Record(shorter, fewer);
      DropIfEmpty(lvl);
      view := Remove(view, elem.value.orderID);
    }

    /** Match on this side: takes t lots from the front order of the best level and drops what became empty. */
    method Take(lvl: PriceLevel, elem: Element, t: int)
      requires Valid() && view != [] && lvl.price == view[0].price && lvl.price in levels && levels[lvl.price] == lvl
      requires lvl.queue.elems != [] && lvl.queue.elems[0] == elem && 0 <= t <= elem.value.amount
      modifies this, heap, heap.Members()`index, lvl`totalAmount, lvl.queue, elem.value`amount
      ensures Valid() && parts == old(parts)
      ensures view == Eaten(old(view), t) && elem.value.amount == old(elem.value.amount) - t
      ensures nodes == if old(elem.value.amount) <= t
                       then Shortened(old(nodes), lvl.price, old(nodes)[lvl.price][1..]) else old(nodes)
    {
      hide LevelsLinked, HeapLinked, PriceHeap.Valid, WellFormed, Represents, Eaten, OwnOrders;
      LevelFacts(lvl.price, queues, nodes);
      ViewEaten(side, view, queues, t);
      ShortenedTwice(queues, lvl.price, Eaten(queues[lvl.price], t));
      ghost var shorter := queues[lvl.price := Eaten(queues[lvl.price], t)];
      ghost var fewer := nodes[lvl.price := if elem.value.amount <= t then nodes[lvl.price][1..] else nodes[lvl.price]];
      TakeFront(lvl, elem, t, queues, nodes);
      Record(shorter, fewer);
      DropIfEmpty(lvl);
      view := Eaten(view, t);
    }

    /** EditOrderAt on this side: a smaller amount keeps the order's place. */
    method Decrease(lvl: PriceLevel, order: BookOrder, amount: int, timestamp: Time, ghost k: nat)
      requires Valid() && lvl.price in levels && levels[lvl.price] == lvl
      requires k < |lvl.queue.elems| && lvl.queue.elems[k].value == order && 0 < amount <= MAX_INT64
      modifies this, lvl`totalAmount, order`amount, order`timestamp
      ensures Valid()
      ensures order.Snapshot() == old(order.Snapshot()).(amount := amount, timestamp := timestamp)
      ensures view == Replace(old(view), order.Snapshot()) && nodes == old(nodes) && parts == old(parts)
    {
      hide LevelsLinked, HeapLinked, WellFormed, Represents, Replace, OwnOrders;
      LevelFacts(lvl.price, queues, nodes);
      ghost var o := order.Snapshot().(amount := amount, timestamp := timestamp);
      ViewReplace(side, view, queues, lvl.price, k, o);
      ghost var changed := queues[lvl.price := queues[lvl.price][k := o]];
      Resize(lvl, order, amount, timestamp, queues, nodes, k);
      Record(changed, nodes);
      view := Replace(view, o);
    }

    /** Rewrites an order that is in no queue. */
    method Rewrite(order: BookOrder, price: int, amount: int, timestamp: Time)
      requires Valid() && order.orderID !in Ids(view)
      modifies order
      ensures Valid()
      ensures order.Snapshot() == old(order.Snapshot()).(price := price, amount := amount, timestamp := timestamp)
    {
      hide HeapLinked, WellFormed, Represents;
      NotInQueues(order);
      order.price := price;
      order.amount := amount;
      order.timestamp := timestamp;
    }

    lemma NotInQueues(order: BookOrder)
      requires Valid() && order.orderID !in Ids(view)
      ensures forall p, i :: p in levels && 0 <= i < |levels[p].queue.elems| ==> levels[p].queue.elems[i].value != order
    {
      forall p, i | p in levels && 0 <= i < |levels[p].queue.elems| ensures levels[p].queue.elems[i].value != order {
        LevelFacts(p, queues, nodes);
        assert AtPrice(view, p) == QueueAt(queues, p);
        AtPriceElems(view, p, i);
      }
    }

    /** The top of the heap is the level of the first order of the view, and that order is its front. */
    lemma BestLevel()
      requires Valid()
      ensures heap.Peek() == None <==> view == []
      ensures view != [] ==>
                var lvl := heap.Peek().value;
                && lvl.price == view[0].price && lvl.price in levels && levels[lvl.price] == lvl
                && lvl in parts && lvl.queue in parts && lvl.queue.elems != []
                && lvl.price in nodes && nodes[lvl.price] == lvl.queue.elems
                && lvl.queue.elems[0].value in parts && lvl.queue.elems[0].value.Snapshot() == view[0]
    {
      if view == [] {
        if heap.levels != [] {
          TopHasOrder();
        }
      } else {
        var p := view[0].price;
        var i := AtPriceHas(view, 0);
        assert AtPrice(view, p) == QueueAt(queues, p);
        assert p in levels && levels[p] in heap.Members();
        heap.SlotOf(levels[p]);
        RootIsBest(side, heap.levels, |heap.levels|, levels[p].index);
        TopHasOrder();
        LevelFacts(p, queues, nodes);
        assert AtPrice(view, p)[0] == view[0];
        assert nodes[p][0].value.Snapshot() == queues[p][0];
      }
    }

    /** No order has a better price than the first one, so no level has. */
    lemma TopHasOrder()
      requires Valid() && heap.levels != []
      ensures view != [] && !Better(side, heap.levels[0].price, view[0].price)
    {
      var p := heap.levels[0].price;
      assert heap.levels[0] in heap.Members();
      assert AtPrice(view, p) == QueueAt(queues, p) != [];
      AtPriceElems(view, p, 0);
    }
  }
}
