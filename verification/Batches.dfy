/** Exactly when the event batch of a command passes validation, and how it is numbered. */
module Batches {
  import opened Models
  import opened Numeric
  import opened Texts
  import opened FlatBook
  import opened Levels
  import opened Matching
  import opened MatchingLaws
  import opened Journal
  import opened OrderEvents
  import opened Execution
  import opened BookLaws

  /** Everything event validation asks of the change itself, its stamp aside. */
  predicate ValidChange(ch: Change) {
    && !IsBlankID(ch.order.id) && !IsBlank(ch.order.userID)
    && ValidPrices(Stamp(NO_COMMAND, ch, 0)) && ValidTransition(Stamp(NO_COMMAND, ch, 0))
    && ch.previousAmount > 0 && ch.filledAmount >= 0 && ch.canceledAmount >= 0 && ch.remainingAmount >= 0
  }

  const NO_COMMAND := Command("", "", 0, CancelCommand, ZeroTime, 0, None, None, None)

  ghost predicate ValidChanges(changes: seq<Change>) {
    forall i :: 0 <= i < |changes| ==> ValidChange(changes[i])
  }

  const INT32_LIMIT: int := 0x8000_0000

  /** A well-formed change is refused only for its stamp. */
  lemma StampValidIff(c: Command, ch: Change, n: nat)
    requires ValidChange(ch) && c.marketConfigVersion >= 0 && c.recordedAt != ZeroTime && n <= INT32_LIMIT
    ensures ValidEvent(Stamp(c, ch, n)) <==>
              !IsBlank(c.commandID) && !IsBlank(c.ticker) && c.sequence > 0 && n < INT32_LIMIT
  {
  }

  /** The guard a caller can check: the batch fits int32 numbering and its command can be named. */
  predicate Stampable(c: Command, changes: seq<Change>) {
    && |changes| <= INT32_LIMIT
    && (changes != [] ==> !IsBlank(c.commandID) && !IsBlank(c.ticker) && c.sequence > 0)
  }

  lemma BatchValidIff(c: Command, changes: seq<Change>)
    requires ValidChanges(changes) && c.marketConfigVersion >= 0 && c.recordedAt != ZeroTime
    ensures AllValid(Stamped(c, changes)) <==> Stampable(c, changes)
  {
    var events := Stamped(c, changes);
    if Stampable(c, changes) {
      forall i | 0 <= i < |events| ensures ValidEvent(events[i]) {
        StampValidIff(c, changes[i], i);
      }
    } else if |changes| > INT32_LIMIT {
      StampValidIff(c, changes[INT32_LIMIT], INT32_LIMIT);
      assert !ValidEvent(events[INT32_LIMIT]);
    } else {
      StampValidIff(c, changes[0], 0);
      assert !ValidEvent(events[0]);
    }
  }

  lemma OverflowInvalid(c: Command, changes: seq<Change>)
    requires |changes| > INT32_LIMIT
    ensures !AllValid(Stamped(c, changes))
  {
    assert !ValidEvent(Stamped(c, changes)[INT32_LIMIT]);
  }

  /** A valid batch is numbered 0, 1, 2, ... without wrap-around. */
  lemma ValidBatchNumbered(c: Command, changes: seq<Change>)
    requires AllValid(Stamped(c, changes))
    ensures forall i :: 0 <= i < |changes| ==> Stamped(c, changes)[i].eventIndex == i
  {
    if |changes| > INT32_LIMIT {
      OverflowInvalid(c, changes);
    }
  }

  lemma MakerValid(o: Order, t: int)
    requires SoundLimit(o) && 0 < t <= o.amount
    ensures ValidChange(MakerChange(FillOf(o, t)))
  {
  }

  lemma EatenSound(s: seq<Order>, t: int)
    requires s != [] && SoundSide(s) && Positive(s) && t <= s[0].amount
    ensures SoundSide(Eaten(s, t)) && Positive(Eaten(s, t))
  {
    hide IsBlank, IsBlankID;
  }

  lemma MakerChangesCons(f: MakerFill, fills: seq<MakerFill>)
    ensures MakerChanges([f] + fills) == [MakerChange(f)] + MakerChanges(fills)
  {
    assert ([f] + fills)[1..] == fills;
  }

  lemma {:induction false} MakersValid(p: Precision, ticker: string, opposite: seq<Order>, taker: Order, n: nat)
    requires SoundSide(opposite) && Positive(opposite)
    ensures ValidChanges(MakerChanges(Greedy(p, ticker, opposite, taker, n).fills))
    decreases |opposite|, if taker.amount > 0 then taker.amount else 0
  {
    hide Greedy, ValidChange, ValidChanges, MakerChange, SoundLimit;
    SingleValid();
    StepUnfolds(p, ticker, opposite, taker, n);
    if Steps(p, opposite, taker) {
      var t := Traded(opposite, taker);
      var rest := Greedy(p, ticker, Eaten(opposite, t), Remaining(opposite, taker), n + 1);
      EatenSound(opposite, t);
      MakersValid(p, ticker, Eaten(opposite, t), Remaining(opposite, taker), n + 1);
      MakerValid(opposite[0], t);
      ValidCons(MakerChange(FillOf(opposite[0], t)), MakerChanges(rest.fills));
      MakerChangesCons(FillOf(opposite[0], t), rest.fills);
    }
  }

  lemma ValidCons(ch: Change, changes: seq<Change>)
    requires ValidChange(ch) && ValidChanges(changes)
    ensures ValidChanges([ch] + changes)
  {
  }

  lemma ValidConcat(a: seq<Change>, b: seq<Change>)
    requires ValidChanges(a) && ValidChanges(b)
    ensures ValidChanges(a + b)
  {
  }

  lemma TakerValid(order: Order, remaining: int, isNew: bool)
    requires Incoming(order) && 0 <= remaining <= order.amount
    ensures ValidChanges(TakerChanges(order, order.amount - remaining, remaining))
    ensures ValidChanges(if isNew then RemainderChanges(order, remaining) else [])
  {
  }

  lemma SoundParts(b: Book, side: Side)
    requires SoundBook(b)
    ensures SoundSide(b.On(side)) && Positive(b.On(side))
  {
  }

  lemma PlanMatchValid(m: Market, b: Book, c: Command, order: Order, isNew: bool, first: seq<Change>)
    requires SoundBook(b) && Incoming(order) && Absent(b, order.id) && ValidChanges(first)
    ensures var plan := PlanMatch(m, b, c, order, isNew, first);
            plan.Planned? ==> ValidChanges(plan.changes)
  {
    hide Greedy, SoundBook, ValidChanges, TakerChanges, RemainderChanges, SoundSide, Incoming;
    var side := order.side.Opposite();
    var g := Greedy(m.precision, m.ticker, b.On(side), order, 0);
    MatchedBook(m, b, order);
    SoundParts(b, side);
    MakersValid(m.precision, m.ticker, b.On(side), order, 0);
    TakerValid(order, g.taker.amount, isNew);
    var a, t := MakerChanges(g.fills), TakerChanges(order, order.amount - g.taker.amount, g.taker.amount);
    ValidConcat(first, a);
    ValidConcat(first + a, t);
    ValidConcat(first + a + t, if isNew then RemainderChanges(order, g.taker.amount) else []);
  }

  /** Every change any command makes to a sound book is a legal lifecycle transition. */
  lemma PlanValid(m: Market, b: Book, c: Command)
    requires SoundBook(b) && (CreatedID(c).Some? ==> Absent(b, CreatedID(c).value))
    ensures var plan := PlanCommand(m, b, c);
            plan.Planned? ==> ValidChanges(plan.changes)
  {
    hide SoundBook, PlanMatch, ApplyEdit, Absent, ValidChanges, Lookup, Withdraw;
    SingleValid();
    if Accepts(m, c) {
      match c.kind
      case CreateCommand =>
        CreatedIncoming(c);
        PlanMatchValid(m, b, c, CreateOrderAt(c.create.value, c.recordedAt), true, []);
      case AmendCommand =>
        EditSound(b, c.amend.value, c.recordedAt);
        var edit := EditOf(b, c.amend.value, c.recordedAt);
        if edit.Some? {
          var e := edit.value;
          assert ValidChange(AmendedChange(e.before, e.after));
          if e.requiresRematch {
            PlanMatchValid(m, ApplyEdit(b, e), c, e.after, false, [AmendedChange(e.before, e.after)]);
          }
        }
      case CancelCommand =>
        LookupSound(b, c.cancel.value.orderID);
        var o := Lookup(b, c.cancel.value.orderID);
        if o.Some? {
          assert ValidChange(CanceledChange(o.value));
        }
    }
  }

  lemma SingleValid()
    ensures ValidChanges([])
    ensures forall ch :: ValidChange(ch) ==> ValidChanges([ch])
  {
  }

  /**
   * The event batch of a planned command passes validation exactly when it is empty, or its command
   * id and ticker are not blank and its sequence is positive, and it fits int32 numbering.
   */
  lemma BatchPassesIff(m: Market, b: Book, c: Command)
    requires SoundBook(b) && (CreatedID(c).Some? ==> Absent(b, CreatedID(c).value))
    requires PlanCommand(m, b, c).Planned? && m.precision.configVersion >= 0
    ensures AllValid(EventsOf(PlanCommand(m, b, c))) <==> Stampable(c, PlanCommand(m, b, c).changes)
  {
    PlanValid(m, b, c);
    var plan := PlanCommand(m, b, c);
    PlannedCommand(m, b, c);
    BatchValidIff(plan.command, plan.changes);
  }

  lemma PlannedCommand(m: Market, b: Book, c: Command)
    requires PlanCommand(m, b, c).Planned?
    ensures Accepts(m, c) && PlanCommand(m, b, c).command == Versioned(m, c)
  {
  }
}
