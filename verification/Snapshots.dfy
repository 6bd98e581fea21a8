/**
 * The aggregated view of a book: one row per price, best price first, cut to a depth, with running
 * totals. The price map is visited in no particular order; what comes out depends on the orders alone.
 */
module Snapshots {
  import opened Models
  import opened FlatBook
  import opened Levels
  import opened Heaps
  import opened Sides
  import opened OrderBooks

  datatype LevelRow = LevelRow(price: int, amount: int, cumulative: int)

  datatype BookSnapshot = BookSnapshot(ticker: string, bids: seq<LevelRow>, asks: seq<LevelRow>)

  /** A price and the amount resting there. */
  datatype PriceTotal = PriceTotal(price: int, amount: int)

  // ----- the rows of a side, from its orders -----

  /** The orders of a sorted side, one total per price. */
  function Grouped(s: seq<Order>): seq<PriceTotal> {
    if s == [] then []
    else
      var rest := Grouped(s[1..]);
      if rest != [] && rest[0].price == s[0].price
      then [PriceTotal(s[0].price, s[0].amount + rest[0].amount)] + rest[1..]
      else [PriceTotal(s[0].price, s[0].amount)] + rest
  }

  /** What rests on a side at price p or better. */
  function Available(side: Side, s: seq<Order>, p: int): int {
    if s == [] then 0 else (if Better(side, p, s[0].price) then 0 else s[0].amount) + Available(side, s[1..], p)
  }

  function Listed(n: nat, depth: int): nat {
    if 0 < depth < n then depth else n
  }

  /** The rows shown for a side: totals and running totals in 64-bit arithmetic. */
  function RowsOf(side: Side, s: seq<Order>, depth: int): seq<LevelRow> {
    var levels := Grouped(s);
    seq(Listed(|levels|, depth), i requires 0 <= i < Listed(|levels|, depth) =>
      LevelRow(levels[i].price, Wrap64(levels[i].amount), Wrap64(Available(side, s, levels[i].price))))
  }

  // ----- what the rows mean -----

  ghost predicate StrictlySorted(side: Side, levels: seq<PriceTotal>) {
    forall i, j :: 0 <= i < j < |levels| ==> Better(side, levels[i].price, levels[j].price)
  }

  lemma StrictlySortedTail(side: Side, levels: seq<PriceTotal>)
    requires levels != [] && StrictlySorted(side, levels)
    ensures StrictlySorted(side, levels[1..])
  {
    forall i, j | 0 <= i < j < |levels[1..]| ensures Better(side, levels[1..][i].price, levels[1..][j].price) {
      assert Better(side, levels[i + 1].price, levels[j + 1].price);
    }
  }

  /** Grouping lists each price of the side once, best first. */
  lemma {:induction false} GroupedSorted(side: Side, s: seq<Order>)
    requires Sorted(side, s)
    ensures StrictlySorted(side, Grouped(s)) && (s == [] <==> Grouped(s) == [])
    ensures s != [] ==> Grouped(s)[0].price == s[0].price
  {
    if s != [] {
      SortedTail(side, s);
      GroupedSorted(side, s[1..]);
      var rest, g := Grouped(s[1..]), Grouped(s);
      if rest != [] {
        assert rest[0].price == s[1].price && !Better(side, s[1].price, s[0].price);
        var first := if rest[0].price == s[0].price then 1 else 0;
        forall j | first <= j < |rest| ensures Better(side, s[0].price, rest[j].price) {
          assert j > 0 ==> Better(side, rest[0].price, rest[j].price);
        }
        StrictlySortedTail(side, rest);
      }
    }
  }

  /** Each grouped amount is the total of the queue at its price, and no price is left out. */
  lemma {:induction false} GroupedTotals(side: Side, s: seq<Order>)
    requires Sorted(side, s)
    ensures forall i :: 0 <= i < |Grouped(s)| ==>
              AtPrice(s, Grouped(s)[i].price) != [] && Grouped(s)[i].amount == Total(AtPrice(s, Grouped(s)[i].price))
    ensures forall k :: 0 <= k < |s| ==> exists i :: 0 <= i < |Grouped(s)| && Grouped(s)[i].price == s[k].price
  {
    if s != [] {
      SortedTail(side, s);
      GroupedTotals(side, s[1..]);
      GroupedSorted(side, s);
      GroupedSorted(side, s[1..]);
      var rest, g := Grouped(s[1..]), Grouped(s);
      var joined := rest != [] && rest[0].price == s[0].price;
      NoneAtBetterTail(side, s);
      forall i | 0 <= i < |g| ensures AtPrice(s, g[i].price) != [] && g[i].amount == Total(AtPrice(s, g[i].price)) {
        if i == 0 {
          TotalAtFirst(s);
          assert !joined ==> AtPrice(s[1..], s[0].price) == [];
        } else {
          var j := if joined then i else i - 1;
          assert g[i] == rest[j] && Better(side, g[0].price, g[i].price);
          assert AtPrice(s, g[i].price) == AtPrice(s[1..], rest[j].price);
        }
      }
      forall k | 0 <= k < |s| ensures exists i :: 0 <= i < |g| && g[i].price == s[k].price {
        if k == 0 {
          assert g[0].price == s[0].price;
        } else {
          var i :| 0 <= i < |rest| && rest[i].price == s[1..][k - 1].price;
          assert g[if joined then i else i + 1].price == s[k].price;
        }
      }
    }
  }

  lemma TotalAtFirst(s: seq<Order>)
    requires s != []
    ensures AtPrice(s, s[0].price) != [] && Total(AtPrice(s, s[0].price)) == s[0].amount + Total(AtPrice(s[1..], s[0].price))
  {
    var queue := AtPrice(s, s[0].price);
    assert queue[0] == s[0] && queue[1..] == AtPrice(s[1..], s[0].price);
  }

  /** If the tail starts at another price, the first order's price occurs nowhere in it. */
  lemma NoneAtBetterTail(side: Side, s: seq<Order>)
    requires s != [] && Sorted(side, s)
    ensures |s| > 1 && s[1].price != s[0].price ==> AtPrice(s[1..], s[0].price) == []
  {
    if |s| > 1 && s[1].price != s[0].price {
      SortedTail(side, s);
      NoneAtBetter(side, s[1..], s[0].price);
    }
  }

  function SumOf(levels: seq<PriceTotal>): int {
    if levels == [] then 0 else levels[0].amount + SumOf(levels[1..])
  }

  lemma {:induction false} SumAppend(levels: seq<PriceTotal>, l: PriceTotal)
    ensures SumOf(levels + [l]) == SumOf(levels) + l.amount
  {
    if levels != [] {
      assert (levels + [l])[1..] == levels[1..] + [l];
      SumAppend(levels[1..], l);
    }
  }

  lemma {:induction false} NothingAvailable(side: Side, s: seq<Order>, p: int)
    requires Sorted(side, s) && (s == [] || Better(side, p, s[0].price))
    ensures Available(side, s, p) == 0
  {
    if s != [] {
      SortedTail(side, s);
      assert |s| > 1 ==> !Better(side, s[1].price, s[0].price);
      NothingAvailable(side, s[1..], p);
    }
  }

  /** Running totals are what rests at the row's price or better. */
  lemma {:induction false} AvailableIsPrefixSum(side: Side, s: seq<Order>, i: nat)
    requires Sorted(side, s) && i < |Grouped(s)|
    ensures Available(side, s, Grouped(s)[i].price) == SumOf(Grouped(s)[..i + 1])
    decreases |s|
  {
    SortedTail(side, s);
    GroupedSorted(side, s);
    GroupedSorted(side, s[1..]);
    var rest, g := Grouped(s[1..]), Grouped(s);
    assert i > 0 ==> Better(side, g[0].price, g[i].price);
    if rest != [] && rest[0].price == s[0].price {
      AvailableIsPrefixSum(side, s[1..], i);
      assert g[..i + 1][1..] == rest[..i + 1][1..];
    } else {
      assert g[..i + 1][1..] == rest[..i];
      if i > 0 {
        AvailableIsPrefixSum(side, s[1..], i - 1);
      } else {
        NothingAvailable(side, s[1..], s[0].price);
      }
    }
  }

  // ----- collecting, sorting, cutting, adding up -----

  function InsertRow(side: Side, rows: seq<LevelRow>, r: LevelRow): seq<LevelRow> {
    if rows == [] || Better(side, r.price, rows[0].price) then [r] + rows
    else [rows[0]] + InsertRow(side, rows[1..], r)
  }

  ghost predicate RowsSorted(side: Side, rows: seq<LevelRow>) {
    forall i, j :: 0 <= i < j < |rows| ==> Better(side, rows[i].price, rows[j].price)
  }

  lemma RowsSortedTail(side: Side, rows: seq<LevelRow>)
    requires rows != [] && RowsSorted(side, rows)
    ensures RowsSorted(side, rows[1..])
    ensures forall r :: r in rows[1..] ==> Better(side, rows[0].price, r.price)
  {
    forall i, j | 0 <= i < j < |rows[1..]| ensures Better(side, rows[1..][i].price, rows[1..][j].price) {
      assert Better(side, rows[i + 1].price, rows[j + 1].price);
    }
    forall r | r in rows[1..] ensures Better(side, rows[0].price, r.price) {
      var i :| 0 <= i < |rows[1..]| && rows[1..][i] == r;
      assert Better(side, rows[0].price, rows[i + 1].price);
    }
  }

  lemma {:induction false} InsertRowSorted(side: Side, rows: seq<LevelRow>, r: LevelRow)
    requires RowsSorted(side, rows) && forall x :: x in rows ==> x.price != r.price
    ensures RowsSorted(side, InsertRow(side, rows, r))
    ensures forall x :: x in InsertRow(side, rows, r) <==> x == r || x in rows
  {
    if rows != [] {
      RowsSortedTail(side, rows);
      if !Better(side, r.price, rows[0].price) {
        InsertRowSorted(side, rows[1..], r);
        assert rows[0] in rows;
        forall x | x in InsertRow(side, rows[1..], r) ensures Better(side, rows[0].price, x.price) {
        }
      }
    }
  }

  lemma FirstIn(rows: seq<LevelRow>)
    ensures rows != [] ==> rows[0] in rows
  {
  }

  /** Strictly sorted rows are determined by which rows they are. */
  lemma {:induction false} SortedUnique(side: Side, a: seq<LevelRow>, b: seq<LevelRow>)
    requires RowsSorted(side, a) && RowsSorted(side, b) && forall r :: r in a <==> r in b
    ensures a == b
    decreases |a|
  {
    FirstIn(a);
    FirstIn(b);
    if a != [] {
      RowsSortedTail(side, a);
      RowsSortedTail(side, b);
      assert b[0] in a && a[0] == b[0];
      assert forall r :: r in a <==> r == a[0] || r in a[1..];
      assert forall r :: r in b <==> r == b[0] || r in b[1..];
      SortedUnique(side, a[1..], b[1..]);
    }
  }

  /** The rows of a side before the running totals. */
  function Uncounted(s: seq<Order>): seq<LevelRow> {
    var levels := Grouped(s);
    seq(|levels|, i requires 0 <= i < |levels| => LevelRow(levels[i].price, Wrap64(levels[i].amount), 0))
  }

  ghost predicate RowOfLevel(s: BookSide, r: LevelRow)
    reads s, s.levels.Values
  {
    r.price in s.levels && r == LevelRow(r.price, s.levels[r.price].totalAmount, 0)
  }

  /** The price map holds exactly the prices of the view, each with the wrapped total of its queue. */
  lemma MapHoldsRows(s: BookSide)
    requires s.Valid()
    ensures RowsSorted(s.side, Uncounted(s.view))
    ensures forall r :: r in Uncounted(s.view) <==> RowOfLevel(s, r)
  {
    var g, rows := Grouped(s.view), Uncounted(s.view);
    GroupedSorted(s.side, s.view);
    GroupedTotals(s.side, s.view);
    forall r | r in rows ensures RowOfLevel(s, r) {
      var i :| 0 <= i < |rows| && rows[i] == r;
      LevelTotal(s, g[i].price);
    }
    forall r | RowOfLevel(s, r) ensures r in rows {
      LevelTotal(s, r.price);
      AtPriceElems(s.view, r.price, 0);
      var k :| 0 <= k < |s.view| && s.view[k].price == r.price;
      var i :| 0 <= i < |g| && g[i].price == s.view[k].price;
      assert rows[i] == r;
    }
  }

  lemma LevelTotal(s: BookSide, p: int)
    requires s.Valid()
    ensures p in s.levels <==> AtPrice(s.view, p) != []
    ensures p in s.levels ==> s.levels[p].totalAmount == Wrap64(Total(AtPrice(s.view, p)))
  {
    assert AtPrice(s.view, p) == QueueAt(s.queues, p);
  }

  // ----- the snapshot -----

  /** Sorts rows of different prices, best price first. */
  method SortRows(side: Side, rows: seq<LevelRow>) returns (sorted: seq<LevelRow>)
    requires forall i, j :: 0 <= i < j < |rows| ==> rows[i].price != rows[j].price
    ensures RowsSorted(side, sorted) && forall r :: r in sorted <==> r in rows
  {
    sorted := [];
    var i := 0;
    while i < |rows|
      invariant 0 <= i <= |rows| && RowsSorted(side, sorted)
      invariant forall r :: r in sorted <==> r in rows[..i]
    {
      InsertRowSorted(side, sorted, rows[i]);
      sorted := InsertRow(side, sorted, rows[i]);
      i := i + 1;
    }
    assert rows[..i] == rows;
  }

  lemma HasElement(prices: set<int>)
    ensures prices == {} || exists p :: p in prices
  {
    if forall p :: p !in prices {
      assert prices == {};
    }
  }

  /** Visits the price map in any order. */
  method CollectRows(s: BookSide) returns (rows: seq<LevelRow>)
    requires s.Valid()
    ensures forall r :: r in rows <==> RowOfLevel(s, r)
    ensures forall i, j :: 0 <= i < j < |rows| ==> rows[i].price != rows[j].price
  {
    hide BookSide.Valid;
    rows := [];
    var pending := set p | p in s.levels;
    while pending != {}
      invariant pending <= s.levels.Keys
      invariant forall r :: r in rows <==> RowOfLevel(s, r) && r.price !in pending
      invariant forall i, j :: 0 <= i < j < |rows| ==> rows[i].price != rows[j].price
      decreases |pending|
    {
      HasElement(pending);
      var price :| price in pending;
      rows := rows + [LevelRow(price, s.levels[price].totalAmount, 0)];
      pending := pending - {price};
    }
  }

  /** The rows of one side, whatever order the price map was visited in. */
  method SnapshotLevels(s: BookSide, depth: int) returns (out: seq<LevelRow>)
    requires s.Valid()
    ensures out == RowsOf(s.side, s.view, depth)
  {
    hide BookSide.Valid, RowOfLevel;
    out := CollectRows(s);
    out := SortRows(s.side, out);
    MapHoldsRows(s);
    SortedUnique(s.side, out, Uncounted(s.view));
    if 0 < depth < |out| {
      out := out[..depth];
    }
    out := AddUp(s.side, s.view, out) by { SideSorted(s); }
  }

  lemma SideSorted(s: BookSide)
    requires s.Valid()
    ensures Sorted(s.side, s.view)
  {
  }

  /** Fills in the running totals, adding in 64-bit arithmetic row by row. */
  method AddUp(ghost side: Side, ghost s: seq<Order>, rows: seq<LevelRow>) returns (out: seq<LevelRow>)
    requires Sorted(side, s) && rows <= Uncounted(s)
    ensures |out| == |rows|
    ensures forall i :: 0 <= i < |out| ==>
              out[i] == LevelRow(rows[i].price, rows[i].amount, Wrap64(Available(side, s, rows[i].price)))
  {
    out := rows;
    ghost var g := Grouped(s);
    var cumulative := 0;
    var i := 0;
    while i < |out|
      invariant 0 <= i <= |out| == |rows| && cumulative == Wrap64(SumOf(g[..i]))
      invariant forall j :: i <= j < |out| ==> out[j] == rows[j]
      invariant forall j :: 0 <= j < i ==>
                  out[j] == LevelRow(rows[j].price, rows[j].amount, Wrap64(Available(side, s, rows[j].price)))
    {
      assert g[..i + 1] == g[..i] + [g[i]];
      SumAppend(g[..i], g[i]);
      WrapAbsorbs(SumOf(g[..i]), Wrap64(g[i].amount));
      WrapAbsorbs(g[i].amount, SumOf(g[..i]));
      AvailableIsPrefixSum(side, s, i);
      cumulative := Wrap64(cumulative + out[i].amount);
      out := out[i := out[i].(cumulative := cumulative)];
      i := i + 1;
    }
  }

  method Snapshot(book: OrderBook, depth: int) returns (snapshot: BookSnapshot)
    requires book.Valid()
    ensures snapshot == BookSnapshot(book.ticker, RowsOf(Bid, book.View().bids, depth), RowsOf(Ask, book.View().asks, depth))
  {
    assert book.SideOK(Bid) && book.SideOK(Ask);
    var bids := SnapshotLevels(book.bids, depth);
    var asks := SnapshotLevels(book.asks, depth);
    snapshot := BookSnapshot(book.ticker, bids, asks);
  }

  /** The top of the heap is the level a snapshot lists first, with the same total. */
  lemma PeekIsFirstRow(s: BookSide, depth: int)
    requires s.Valid()
    ensures var rows := RowsOf(s.side, s.view, depth);
            match s.heap.Peek()
            case None => rows == []
            case Some(lvl) => rows != [] && rows[0] == LevelRow(lvl.price, lvl.totalAmount, lvl.totalAmount)
  {
    GroupedSorted(s.side, s.view);
    GroupedTotals(s.side, s.view);
    s.BestLevel();
    if s.view != [] {
      AvailableIsPrefixSum(s.side, s.view, 0);
      LevelTotal(s, s.view[0].price);
      assert Grouped(s.view)[..1] == [Grouped(s.view)[0]];
    }
  }

  /**
   * What a snapshot says: each row is a distinct price with the total of its queue and of everything at
   * that price or better; rows get strictly worse; a price is missing only if every listed one is better.
   */
  lemma RowsMean(side: Side, s: seq<Order>, depth: int)
    requires Sorted(side, s)
    ensures var rows := RowsOf(side, s, depth);
            && RowsSorted(side, rows)
            && (depth > 0 ==> |rows| <= depth)
            && (forall i :: 0 <= i < |rows| ==>
                  && AtPrice(s, rows[i].price) != []
                  && rows[i].amount == Wrap64(Total(AtPrice(s, rows[i].price)))
                  && rows[i].cumulative == Wrap64(Available(side, s, rows[i].price)))
            && (forall k :: 0 <= k < |s| ==>
                  || (exists i :: 0 <= i < |rows| && rows[i].price == s[k].price)
                  || (|rows| == depth && forall i :: 0 <= i < |rows| ==> Better(side, rows[i].price, s[k].price)))
  {
    GroupedSorted(side, s);
    GroupedTotals(side, s);
    var g, rows := Grouped(s), RowsOf(side, s, depth);
    forall k | 0 <= k < |s|
      ensures (exists i :: 0 <= i < |rows| && rows[i].price == s[k].price)
           || (|rows| == depth && forall i :: 0 <= i < |rows| ==> Better(side, rows[i].price, s[k].price))
    {
      var i :| 0 <= i < |g| && g[i].price == s[k].price;
      if i < |rows| {
        assert rows[i].price == s[k].price;
      }
    }
  }
}
