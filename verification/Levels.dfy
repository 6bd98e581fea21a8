/** The mutable parts of one side of the book: orders, first-in first-out queues, price levels. */
module Levels {
  import opened Models
  import opened FlatBook

  /** A sequence without its k-th member. */
  function Cut<T>(s: seq<T>, k: nat): (r: seq<T>)
    requires k < |s|
    ensures |r| == |s| - 1
    ensures forall x :: x in r ==> x in s
  {
    if k == 0 then s[1..] else [s[0]] + Cut(s[1..], k - 1)
  }

  lemma {:induction false} CutIs<T>(s: seq<T>, k: nat)
    requires k < |s|
    ensures Cut(s, k) == s[..k] + s[k + 1..]
  {
    if k > 0 {
      CutIs(s[1..], k - 1);
      assert [s[0]] + (s[1..][..k - 1] + s[1..][k..]) == s[..k] + s[k + 1..];
    }
  }

  /** A resting or incoming order. Only price, amount and timestamp ever change. */
  class BookOrder {
    const orderID: OrderID
    const ticker: string
    const userID: string
    const orderType: OrderType
    const position: Side
    const nonce: nat
    var price: int
    var amount: int
    var timestamp: Time

    constructor (o: Order)
      ensures Snapshot() == o
    {
      orderID, ticker, userID, orderType, position, nonce := o.id, o.ticker, o.userID, o.orderType, o.side, o.nonce;
      price, amount, timestamp := o.price, o.amount, o.timestamp;
    }

    /** The order's value at this moment: a copy of the struct. */
    function Snapshot(): (o: Order)
      reads this
    {
      Order(orderID, ticker, userID, orderType, position, price, amount, timestamp, nonce)
    }
  }

  /** A list node: the handle the id index keeps for each resting order. */
  class Element {
    const value: BookOrder

    constructor (value: BookOrder)
      ensures this.value == value
    {
      this.value := value;
    }
  }

  /** A first-in first-out queue with removal by node handle. */
  class Queue {
    ghost const price: int // the price this queue serves: tells the queues of one side apart
    var elems: seq<Element>

    constructor (ghost price: int)
      ensures this.price == price && elems == []
    {
      this.price := price;
      elems := [];
    }

    method Push(order: BookOrder) returns (elem: Element)
      modifies this
      ensures fresh(elem) && elem.value == order
      ensures elems == old(elems) + [elem]
    {
      elem := new Element(order);
      elems := elems + [elem];
    }

    method Pop() returns (value: Option<BookOrder>)
      modifies this
      ensures old(elems) == [] ==> value == None && elems == []
      ensures old(elems) != [] ==> value == Some(old(elems)[0].value) && elems == old(elems)[1..]
    {
      if elems == [] {
        return None;
      }
      value, elems := Some(elems[0].value), elems[1..];
    }

    /** Unlinks the node, the k-th of the list; a node that is not in this list is left alone. */
    method Remove(elem: Element, ghost k: int) returns (value: BookOrder)
      requires elem in elems ==> 0 <= k < |elems| && elems[k] == elem
      requires forall j :: 0 <= j < |elems| && elems[j] == elem ==> j == k
      modifies this
      ensures elem in old(elems) ==> elems == Cut(old(elems), k)
      ensures elem !in old(elems) ==> elems == old(elems)
      ensures value == elem.value
    {
      var i := 0;
      while i < |elems| && elems[i] != elem
        invariant 0 <= i <= |elems| && elem !in elems[..i]
        invariant elem in elems ==> i <= k
      {
        i := i + 1;
      }
      if i < |elems| {
        CutIs(elems, i);
        elems := elems[..i] + elems[i + 1..];
      }
      value := elem.value;
    }

    function Front(): (e: Option<Element>)
      reads this
    {
      if elems == [] then None else Some(elems[0])
    }

    function Len(): nat
      reads this
    {
      |elems|
    }
  }

  /** What eating t lots of the first order leaves, and what it takes from the total. */
  lemma EatenParts(s: seq<Order>, t: int)
    requires s != [] && t <= s[0].amount
    ensures Eaten(s, t) == if s[0].amount <= t then s[1..] else s[0 := s[0].(amount := s[0].amount - t)]
    ensures Total(s) - t == Total(Eaten(s, t))
  {
    if s[0].amount > t {
      assert Eaten(s, t)[1..] == s[1..];
    }
  }

  lemma EatenTotal(s: seq<Order>, t: int)
    requires s != [] && t <= s[0].amount
    ensures Wrap64(Wrap64(Total(s)) - t) == Wrap64(Total(Eaten(s, t)))
  {
    hide Wrap64, Total, Eaten;
    EatenParts(s, t);
    WrapAbsorbs(Total(s), -t);
    assert Total(s) + -t == Total(Eaten(s, t));
  }

  lemma TotalCut(s: seq<Order>, k: nat)
    requires k < |s|
    ensures Wrap64(Wrap64(Total(s)) - s[k].amount) == Wrap64(Total(Cut(s, k)))
  {
    hide Wrap64, Total, Cut;
    CutIs(s, k);
    TotalWithout(s, k);
    WrapAbsorbs(Total(s), -s[k].amount);
    assert Total(s) + -s[k].amount == Total(Cut(s, k));
  }

  /** All resting orders of one side at one price. */
  class PriceLevel {
    const price: int
    const queue: Queue
    var index: int
    var totalAmount: Int64

    constructor (price: int)
      ensures this.price == price && fresh(queue) && queue.price == price && queue.elems == []
      ensures index == 0 && totalAmount == 0
    {
      this.price := price;
      queue := new Queue(price);
      index := 0;
      totalAmount := 0;
    }

    /** The queue holds exactly the orders s, first in first, and the total is their sum modulo 2^64. */
    ghost predicate Holds(s: seq<Order>)
      reads `totalAmount, queue, set e | e in queue.elems :: e.value
    {
      && |queue.elems| == |s|
      && (forall i :: 0 <= i < |s| ==> queue.elems[i].value.Snapshot() == s[i])
      && totalAmount == Wrap64(Total(s))
    }

    /** Distinct identities make the node of each order unique in its queue. */
    lemma NodeUnique(s: seq<Order>, i: int, j: int)
      requires Holds(s) && Distinct(s) && 0 <= i < |s| && 0 <= j < |s|
      requires queue.elems[i].value == queue.elems[j].value
      ensures i == j
    {
      assert s[i].id == s[j].id;
    }

    method Append(order: BookOrder, ghost s: seq<Order>) returns (elem: Element)
      requires Holds(s)
      modifies `totalAmount, queue
      ensures fresh(elem) && elem.value == order
      ensures queue.elems == old(queue.elems) + [elem]
      ensures Holds(s + [order.Snapshot()])
    {
      TotalAppend(s, order.Snapshot());
      WrapAbsorbs(Total(s), order.amount);
      totalAmount := Wrap64(totalAmount + order.amount);
      elem := queue.Push(order);
    }

    /** Without its k-th node the queue holds the orders without the k-th. */
    lemma HoldsCut(s: seq<Order>, k: nat)
      requires Holds(s) && k < |s|
      ensures |Cut(queue.elems, k)| == |Cut(s, k)| && forall e :: e in Cut(queue.elems, k) ==> e in queue.elems
      ensures forall i :: 0 <= i < |Cut(s, k)| ==> Cut(queue.elems, k)[i].value.Snapshot() == Cut(s, k)[i]
    {
      CutIs(s, k);
      CutIs(queue.elems, k);
      hide Cut, Total;
      var fewer, orders := Cut(queue.elems, k), Cut(s, k);
      forall i | 0 <= i < |orders| ensures fewer[i].value.Snapshot() == orders[i] {
        var j := if i < k then i else i + 1;
        assert fewer[i] == queue.elems[j] && orders[i] == s[j];
      }
    }

    method Unlink(elem: Element, ghost s: seq<Order>, ghost k: nat)
      requires Holds(s) && Distinct(s) && k < |s| && queue.elems[k] == elem
      modifies `totalAmount, queue
      ensures queue.elems == Cut(old(queue.elems), k) && Holds(Cut(s, k))
    {
      hide Cut, Total, Wrap64;
      forall j | 0 <= j < |s| && queue.elems[j] == elem ensures j == k {
        NodeUnique(s, j, k);
      }
      HoldsCut(s, k);
      TotalCut(s, k);
      assert elem.value.Snapshot() == s[k];
      var removed := queue.Remove(elem, k);
      totalAmount := Wrap64(totalAmount - removed.amount);
      assert forall i :: 0 <= i < |Cut(s, k)| ==> queue.elems[i] in old(queue.elems);
      assert forall i :: 0 <= i < |Cut(s, k)| ==> queue.elems[i].value.Snapshot() == Cut(s, k)[i];
    }

    /** Takes t lots from the front order and unlinks it once nothing is left. */
    method TakeFront(elem: Element, t: int, ghost s: seq<Order>)
      requires Holds(s) && Distinct(s) && s != [] && queue.elems[0] == elem && t <= s[0].amount
      modifies `totalAmount, queue, elem.value`amount
      ensures Holds(Eaten(s, t)) && elem.value.amount == s[0].amount - t
      ensures queue.elems == if s[0].amount <= t then old(queue.elems)[1..] else old(queue.elems)
    {
      hide Eaten, Total, Wrap64, Cut;
      var order := elem.value;
      forall j | 0 <= j < |s| && (queue.elems[j] == elem || queue.elems[j].value == order) ensures j == 0 {
        NodeUnique(s, j, 0);
      }
      EatenParts(s, t);
      EatenTotal(s, t);
      CutIs(queue.elems, 0);
      order.amount := order.amount - t;
      totalAmount := Wrap64(totalAmount - t);
      if order.amount <= 0 {
        var removed := queue.Remove(elem, 0);
        assert forall i :: 0 <= i < |s[1..]| ==> queue.elems[i].value.Snapshot() == s[1..][i];
      }
    }

    /** Changes one queued order's amount in place, and the running total with it. */
    method Resize(order: BookOrder, amount: int, timestamp: Time, ghost s: seq<Order>, ghost k: nat)
      requires Holds(s) && Distinct(s) && k < |s| && queue.elems[k].value == order
      modifies `totalAmount, order`amount, order`timestamp
      ensures Holds(s[k := s[k].(amount := amount, timestamp := timestamp)])
    {
      ghost var o := s[k].(amount := amount, timestamp := timestamp);
      TotalUpdate(s, k, o);
      WrapAbsorbs(Total(s), amount - order.amount);
      forall j | 0 <= j < |s| && queue.elems[j].value == order ensures j == k {
        NodeUnique(s, j, k);
      }
      totalAmount := Wrap64(totalAmount + (amount - order.amount));
      order.amount := amount;
      order.timestamp := timestamp;
    }
  }

  /** A queue after t lots of its front order have been taken. */
  function Eaten(s: seq<Order>, t: int): seq<Order>
    requires s != []
  {
    if s[0].amount <= t then s[1..] else [s[0].(amount := s[0].amount - t)] + s[1..]
  }

  lemma {:induction false} TotalAppend(s: seq<Order>, o: Order)
    ensures Total(s + [o]) == Total(s) + o.amount
  {
    if s != [] {
      TotalAppend(s[1..], o);
      assert (s + [o])[1..] == s[1..] + [o];
    }
  }

  lemma {:induction false} TotalWithout(s: seq<Order>, k: int)
    requires 0 <= k < |s|
    ensures Total(s[..k] + s[k + 1..]) == Total(s) - s[k].amount
  {
    if k == 0 {
      assert s[..k] + s[k + 1..] == s[1..];
    } else {
      TotalWithout(s[1..], k - 1);
      assert (s[..k] + s[k + 1..])[1..] == s[1..][..k - 1] + s[1..][k..];
    }
  }

  lemma {:induction false} TotalUpdate(s: seq<Order>, k: nat, o: Order)
    requires k < |s|
    ensures Total(s[k := o]) == Total(s) - s[k].amount + o.amount
  {
    if k > 0 {
      TotalUpdate(s[1..], k - 1, o);
      assert s[k := o][1..] == s[1..][k - 1 := o];
    }
  }
}
