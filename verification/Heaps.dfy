/**
 * The position-tracked binary heap of price levels. The source's max and min heaps differ only in
 * the direction of Less, here the side of the book.
 */
module Heaps {
  import opened Models
  import opened FlatBook
  import opened Levels

  function Parent(i: nat): nat {
    if i == 0 then 0 else (i - 1) / 2
  }

  /** Slot i does not beat its parent. */
  predicate Settled(side: Side, s: seq<PriceLevel>, i: nat)
    requires i < |s|
  {
    !Better(side, s[i].price, s[Parent(i)].price)
  }

  ghost predicate HeapOn(side: Side, s: seq<PriceLevel>, n: nat)
    requires n <= |s|
  {
    forall i :: 0 < i < n ==> Settled(side, s, i)
  }

  /** A heap up to n, except that slot j may beat its parent. */
  ghost predicate UpBroken(side: Side, s: seq<PriceLevel>, n: nat, j: nat)
    requires n <= |s|
  {
    && (forall i :: 0 < i < n && i != j ==> Settled(side, s, i))
    && (0 < j < |s| ==> forall i :: 0 < i < n && Parent(i) == j ==> !Better(side, s[i].price, s[Parent(j)].price))
  }

  /** A heap up to n, except that slot j may be beaten by its children or, if !above, beat its parent. */
  ghost predicate DownBroken(side: Side, s: seq<PriceLevel>, n: nat, j: nat, above: bool)
    requires n <= |s|
  {
    && (forall i :: 0 < i < n && Parent(i) != j && (above || i != j) ==> Settled(side, s, i))
    && (0 < j < |s| ==> forall i :: 0 < i < n && Parent(i) == j ==> !Better(side, s[i].price, s[Parent(j)].price))
  }

  /** The root of a heap is at least as good as every level in it. */
  lemma {:induction false} RootIsBest(side: Side, s: seq<PriceLevel>, n: nat, i: nat)
    requires i < n <= |s| && HeapOn(side, s, n)
    ensures !Better(side, s[i].price, s[0].price)
    decreases i
  {
    if i > 0 {
      RootIsBest(side, s, n, Parent(i));
      assert Settled(side, s, i);
    }
  }

  function MembersOf(s: seq<PriceLevel>): set<PriceLevel> {
    set l | l in s
  }

  function Swapped(s: seq<PriceLevel>, i: nat, j: nat): (t: seq<PriceLevel>)
    requires i < |s| && j < |s|
  {
    s[i := s[j]][j := s[i]]
  }

  lemma SwappedMembers(s: seq<PriceLevel>, i: nat, j: nat)
    requires i < |s| && j < |s|
    ensures MembersOf(Swapped(s, i, j)) == MembersOf(s)
  {
    var t := Swapped(s, i, j);
    forall k | 0 <= k < |s| ensures s[k] in t {
      assert t[if k == i then j else if k == j then i else k] == s[k];
    }
  }

  /** One sift-up step moves the offending slot to its parent. */
  lemma UpStep(side: Side, s: seq<PriceLevel>, n: nat, j: nat)
    requires 0 < j < n <= |s| && UpBroken(side, s, n, j)
    requires Better(side, s[j].price, s[Parent(j)].price)
    ensures UpBroken(side, Swapped(s, Parent(j), j), n, Parent(j))
  {
    var p := Parent(j);
    var t := Swapped(s, p, j);
    forall i | 0 < i < n && i != p ensures Settled(side, t, i) {
      if i != j {
        assert Settled(side, s, i);
      }
    }
    if p > 0 {
      assert Settled(side, s, p);
      forall i | 0 < i < n && Parent(i) == p ensures !Better(side, t[i].price, t[Parent(p)].price) {
        if i != j {
          assert Settled(side, s, i);
        }
      }
    }
  }

  class PriceHeap {
    const side: Side
    var levels: seq<PriceLevel>

    constructor (side: Side)
      ensures this.side == side && levels == []
    {
      this.side := side;
      levels := [];
    }

    /** Every level's index is its slot, and no slot beats its parent. */
    ghost predicate Valid()
      reads this, levels`index
    {
      Indexed() && HeapOn(side, levels, |levels|)
    }

    ghost predicate Indexed()
      reads this, levels`index
    {
      forall i :: 0 <= i < |levels| ==> levels[i].index == i
    }

    ghost function Members(): set<PriceLevel>
      reads this
    {
      MembersOf(levels)
    }

    function Len(): nat
      reads this
    {
      |levels|
    }

    /** The back-pointer of a level in the heap is its slot. */
    lemma SlotOf(l: PriceLevel)
      requires Valid() && l in Members()
      ensures 0 <= l.index < |levels| && levels[l.index] == l
    {
      var i :| 0 <= i < |levels| && levels[i] == l;
    }

    predicate Less(i: nat, j: nat)
      requires i < |levels| && j < |levels|
      reads this
    {
      Better(side, levels[i].price, levels[j].price)
    }

    function Peek(): (top: Option<PriceLevel>)
      reads this
    {
      if levels == [] then None else Some(levels[0])
    }

    method Swap(i: nat, j: nat)
      requires i < |levels| && j < |levels| && Indexed()
      modifies `levels, Members()`index
      ensures levels == old(levels)[i := old(levels)[j]][j := old(levels)[i]]
      ensures Members() == old(Members())
      ensures Indexed()
    {
      SwappedMembers(levels, i, j);
      levels := levels[i := levels[j]][j := levels[i]];
      levels[i].index := i;
      levels[j].index := j;
    }

    method Push(level: PriceLevel)
      requires Indexed() && level !in levels
      modifies `levels, level`index
      ensures levels == old(levels) + [level] && Indexed()
    {
      level.index := |levels|;
      levels := levels + [level];
    }

    method Pop() returns (level: PriceLevel)
      requires levels != [] && Indexed()
      modifies `levels, Members()`index
      ensures level == old(levels)[|old(levels)| - 1] && level.index == -1
      ensures levels == old(levels)[..|old(levels)| - 1] && Indexed()
    {
      var n := |levels|;
      level := levels[n - 1];
      level.index := -1;
      levels := levels[..n - 1];
    }

    /** Sift-up from slot j0, within the first n slots. */
    method Up(j0: nat, ghost n: nat)
      requires j0 < n <= |levels| && Indexed() && UpBroken(side, levels, n, j0)
      modifies `levels, Members()`index
      ensures |levels| == |old(levels)| && levels[n..] == old(levels)[n..]
      ensures Members() == old(Members())
      ensures Indexed() && HeapOn(side, levels, n)
    {
      var j: nat := j0;
      while true
        invariant j < n <= |levels| && |levels| == |old(levels)|
        invariant levels[n..] == old(levels)[n..]
        invariant Members() == old(Members())
        invariant Indexed() && UpBroken(side, levels, n, j)
        decreases j
      {
        var i := Parent(j);
        if i == j || !Less(j, i) {
          break;
        }
        UpStep(side, levels, n, j);
        Swap(i, j);
        j := i;
      }
    }

    /** The better of the one or two children of slot i. */
    function BetterChild(i: nat, n: nat): (j: nat)
      requires 2 * i + 1 < n <= |levels|
      reads this
      ensures i < j < n && Parent(j) == i
      ensures forall k :: 0 < k < n && Parent(k) == i ==> !Better(side, levels[k].price, levels[j].price)
    {
      var left := 2 * i + 1;
      if left + 1 < n && Less(left + 1, left) then left + 1 else left
    }

    /** Sift-down from slot i0 within the first n slots; reports whether anything moved. */
    method Down(i0: nat, n: nat) returns (moved: bool)
      requires i0 < n <= |levels| && Indexed() && DownBroken(side, levels, n, i0, false)
      modifies `levels, Members()`index
      ensures |levels| == |old(levels)| && levels[n..] == old(levels)[n..]
      ensures Members() == old(Members())
      ensures Indexed()
      ensures moved ==> HeapOn(side, levels, n)
      ensures !moved ==> UpBroken(side, levels, n, i0)
    {
      var i: nat := i0;
      while true
        invariant i0 <= i < n <= |levels| && |levels| == |old(levels)|
        invariant levels[n..] == old(levels)[n..]
        invariant Members() == old(Members())
        invariant Indexed() && DownBroken(side, levels, n, i, i > i0)
        decreases n - i
      {
        if 2 * i + 1 >= n {
          DownLeaf(side, levels, n, i, i > i0);
          break;
        }
        var j := BetterChild(i, n);
        if !Less(j, i) {
          DownSettled(side, levels, n, i, j, i > i0);
          break;
        }
        DownStep(side, levels, n, i, j, i > i0);
        Swap(i, j);
        i := j;
      }
      moved := i > i0;
    }

    /** container/heap's Push: append, then sift up. */
    method HeapPush(level: PriceLevel)
      requires Valid() && level !in levels
      modifies `levels, Members()`index, level`index
      ensures Valid() && Members() == old(Members()) + {level}
    {
      Push(level);
      HeapOnPrefix(side, old(levels), levels, |old(levels)|);
      Up(|levels| - 1, |levels|);
    }

    /** container/heap's Remove: swap with the last slot, sift down or else up, then pop. */
    method HeapRemove(i: nat) returns (level: PriceLevel)
      requires Valid() && i < |levels|
      modifies `levels, Members()`index
      ensures Valid() && Members() == old(Members()) - {level}
      ensures level == old(levels)[i] && level.index == -1
    {
      var n := |levels| - 1;
      if n != i {
        RemovalBreaks(side, levels, n, i);
        Swap(i, n);
        var moved := Down(i, n);
        if !moved {
          Up(i, n);
        }
        assert levels[n] == levels[n..][0];
      }
      LastOut(levels);
      ghost var full := levels;
      level := Pop();
      HeapOnPrefix(side, full, levels, n);
    }
  }

  lemma LastOut(s: seq<PriceLevel>)
    requires s != []
    requires forall i :: 0 <= i < |s| ==> s[i].index == i
    ensures MembersOf(s[..|s| - 1]) == MembersOf(s) - {s[|s| - 1]}
  {
  }

  lemma HeapOnPrefix(side: Side, s: seq<PriceLevel>, t: seq<PriceLevel>, n: nat)
    requires n <= |s| && n <= |t| && s[..n] == t[..n] && HeapOn(side, s, n)
    ensures HeapOn(side, t, n)
  {
    assert forall i :: 0 <= i < n ==> t[i] == s[..n][i];
    forall i | 0 < i < n ensures Settled(side, t, i) {
      assert Settled(side, s, i);
    }
  }

  /** Overwriting slot i by the last level leaves a heap broken only around slot i. */
  lemma RemovalBreaks(side: Side, s: seq<PriceLevel>, n: nat, i: nat)
    requires i < n == |s| - 1 && HeapOn(side, s, |s|)
    ensures DownBroken(side, Swapped(s, i, n), n, i, false)
  {
    var t := Swapped(s, i, n);
    forall k | 0 < k < n && Parent(k) != i && k != i ensures Settled(side, t, k) {
      assert Settled(side, s, k);
    }
    if i > 0 {
      forall k | 0 < k < n && Parent(k) == i ensures !Better(side, t[k].price, t[Parent(i)].price) {
        assert Settled(side, s, k) && Settled(side, s, i);
      }
    }
  }

  /** A slot without children, or not beaten by its better child, ends the sift-down. */
  lemma DownLeaf(side: Side, s: seq<PriceLevel>, n: nat, i: nat, above: bool)
    requires i < n <= |s| && DownBroken(side, s, n, i, above) && 2 * i + 1 >= n
    ensures if above then HeapOn(side, s, n) else UpBroken(side, s, n, i)
  {
  }

  lemma DownSettled(side: Side, s: seq<PriceLevel>, n: nat, i: nat, j: nat, above: bool)
    requires i < j < n <= |s| && DownBroken(side, s, n, i, above)
    requires !Better(side, s[j].price, s[i].price)
    requires forall k :: 0 < k < n && Parent(k) == i ==> !Better(side, s[k].price, s[j].price)
    ensures if above then HeapOn(side, s, n) else UpBroken(side, s, n, i)
  {
  }

  /** One sift-down step moves the offending slot to its better child. */
  lemma DownStep(side: Side, s: seq<PriceLevel>, n: nat, i: nat, j: nat, above: bool)
    requires i < j < n <= |s| && Parent(j) == i && DownBroken(side, s, n, i, above)
    requires Better(side, s[j].price, s[i].price)
    requires forall k :: 0 < k < n && Parent(k) == i ==> !Better(side, s[k].price, s[j].price)
    ensures DownBroken(side, Swapped(s, i, j), n, j, true)
  {
    var t := Swapped(s, i, j);
    forall k | 0 < k < n && Parent(k) != j ensures Settled(side, t, k) {
      if k != i && Parent(k) != i {
        assert Settled(side, s, k);
      }
    }
    forall k | 0 < k < n && Parent(k) == j ensures !Better(side, t[k].price, t[Parent(j)].price) {
      assert Settled(side, s, k);
    }
  }
}
