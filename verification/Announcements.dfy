/** What each event means: its type and reason follow from what happened to the order, and its stamp from the command. */
module Announcements {
  import opened Models
  import opened Numeric
  import opened Texts
  import opened FlatBook
  import opened Levels
  import opened Matching
  import opened MatchingLaws
  import opened Journal
  import opened OrderEvents
  import opened Execution
  import opened BookLaws
  import opened Batches

  /**
   * A transition is legal exactly when its amounts tell its type: what was there is filled, cancelled or
   * left, unless it is an amendment; something is filled, cancelled or left over exactly in the types
   * that say so.
   */
  lemma TransitionIff(e: Event)
    requires e.previousAmount > 0 && e.filledAmount >= 0 && e.canceledAmount >= 0 && e.remainingAmount >= 0
    ensures ValidTransition(e) <==>
              && (e.kind != Amended ==> e.previousAmount == e.filledAmount + e.canceledAmount + e.remainingAmount)
              && (e.filledAmount > 0 <==> e.kind in {PartiallyFilled, Filled})
              && (e.canceledAmount > 0 <==> e.kind in {Canceled, RemainderCanceled})
              && (e.remainingAmount == 0 <==> e.kind in {Filled, Canceled, RemainderCanceled})
  {
  }

  /** A valid event is identified by what it is about, priced like its order's type, and a legal transition. */
  lemma ValidEventIff(e: Event)
    ensures ValidEvent(e) <==>
              && e.eventID == EventID(e.ticker, e.commandID, e.orderID, e.kind, e.eventIndex)
              && !IsBlank(e.commandID) && !IsBlank(e.ticker) && !IsBlank(e.userID) && !(e.orderID.Raw? && IsBlank(e.orderID.text))
              && e.commandSequence >= 1 && !(e.eventIndex < 0) && !(e.marketConfigVersion < 0) && e.occurredAt.At?
              && (match e.orderType
                  case Market => e.previousPrice == 0 == e.price
                  case Limit => e.previousPrice >= 1 && e.price >= 1)
              && !(e.previousAmount <= 0 || e.filledAmount < 0 || e.canceledAmount < 0 || e.remainingAmount < 0)
              && ValidTransition(e)
  {
    hide IsBlank, ValidTransition;
  }

  // ----- types and reasons -----

  /** The reason an event gives is the one its amounts and prices show. */
  predicate Explained(ch: Change) {
    match ch.reason
    case NoMatch => ch.kind == Resting
    case PartialFill => ch.kind == PartiallyFilled
    case NoReason => ch.kind == Filled
    case PriceChanged => ch.kind == Amended && ch.previousPrice != ch.price
    case AmountIncreased => ch.kind == Amended && ch.previousPrice == ch.price && ch.previousAmount < ch.remainingAmount
    case AmountDecreased => ch.kind == Amended && ch.previousPrice == ch.price && ch.previousAmount > ch.remainingAmount
    case UserRequest => ch.kind == Canceled
    case InsufficientLiquidity => ch.kind == RemainderCanceled
  }

  /** The event is one its command may cause: only its own order rests, is amended or is cancelled, each by its own command. */
  predicate CausedBy(c: Command, ch: Change) {
    match ch.kind
    case Resting => c.kind == CreateCommand && CreatedID(c) == Some(ch.order.id) && ch.order.orderType == Limit
    case PartiallyFilled => c.kind != CancelCommand
    case Filled => c.kind != CancelCommand
    case Amended => c.kind == AmendCommand && c.amend.Some? && c.amend.value.orderID == ch.order.id
    case Canceled => c.kind == CancelCommand && c.cancel.Some? && c.cancel.value.orderID == ch.order.id
    case RemainderCanceled => c.kind == CreateCommand && CreatedID(c) == Some(ch.order.id) && ch.order.orderType == OrderType.Market
  }

  ghost predicate AllExplained(c: Command, changes: seq<Change>) {
    forall ch :: ch in changes ==> Explained(ch) && CausedBy(c, ch)
  }

  lemma ExplainedConcat(c: Command, a: seq<Change>, b: seq<Change>)
    requires AllExplained(c, a) && AllExplained(c, b)
    ensures AllExplained(c, a + b)
  {
  }

  lemma {:induction false} MakersExplained(c: Command, fills: seq<MakerFill>)
    requires c.kind != CancelCommand
    ensures AllExplained(c, MakerChanges(fills))
    decreases |fills|
  {
    if fills != [] {
      MakersExplained(c, fills[1..]);
    }
  }

  lemma TakerExplained(c: Command, order: Order, remaining: int, isNew: bool)
    requires c.kind != CancelCommand && (isNew ==> c.kind == CreateCommand && CreatedID(c) == Some(order.id))
    ensures AllExplained(c, TakerChanges(order, order.amount - remaining, remaining))
    ensures AllExplained(c, if isNew then RemainderChanges(order, remaining) else [])
  {
  }

  lemma PlanMatchExplained(m: Market, b: Book, c: Command, order: Order, isNew: bool, first: seq<Change>)
    requires c.kind != CancelCommand && AllExplained(c, first) && (isNew ==> c.kind == CreateCommand && CreatedID(c) == Some(order.id))
    ensures var plan := PlanMatch(m, b, c, order, isNew, first);
            plan.Planned? ==> AllExplained(c, plan.changes)
  {
    hide Greedy, AllExplained, TakerChanges, RemainderChanges, MakerChanges, Rest;
    var g := Greedy(m.precision, m.ticker, b.On(order.side.Opposite()), order, 0);
    var a, t := MakerChanges(g.fills), TakerChanges(order, order.amount - g.taker.amount, g.taker.amount);
    MakersExplained(c, g.fills);
    TakerExplained(c, order, g.taker.amount, isNew);
    ExplainedConcat(c, first, a);
    ExplainedConcat(c, first + a, t);
    ExplainedConcat(c, first + a + t, if isNew then RemainderChanges(order, g.taker.amount) else []);
  }

  /** Every event of every command gives the reason its amounts show, and is one the command may cause. */
  lemma PlanExplained(m: Market, b: Book, c: Command)
    requires SoundBook(b)
    ensures var plan := PlanCommand(m, b, c);
            plan.Planned? ==> AllExplained(c, plan.changes)
  {
    hide SoundBook, PlanMatch, ApplyEdit, Lookup, Withdraw, Explained, CausedBy;
    if Accepts(m, c) {
      match c.kind
      case CreateCommand =>
        PlanMatchExplained(m, b, c, CreateOrderAt(c.create.value, c.recordedAt), true, []);
      case AmendCommand =>
        var edit := EditOf(b, c.amend.value, c.recordedAt);
        if edit.Some? {
          var e := edit.value;
          EditSound(b, c.amend.value, c.recordedAt);
          AmendExplained(b, c);
          if e.requiresRematch {
            PlanMatchExplained(m, ApplyEdit(b, e), c, e.after, false, [AmendedChange(e.before, e.after)]);
          }
        }
      case CancelCommand =>
        LookupSound(b, c.cancel.value.orderID);
        CancelExplained(b, c);
    }
  }

  lemma AmendExplained(b: Book, c: Command)
    requires SoundBook(b) && c.kind == AmendCommand && c.amend.Some? && ValidAmend(c.amend.value)
    requires EditOf(b, c.amend.value, c.recordedAt).Some?
    ensures var e := EditOf(b, c.amend.value, c.recordedAt).value;
            AllExplained(c, [AmendedChange(e.before, e.after)])
  {
    hide SoundBook, Lookup, ApplyEdit;
    EditSound(b, c.amend.value, c.recordedAt);
  }

  lemma CancelExplained(b: Book, c: Command)
    requires SoundBook(b) && c.kind == CancelCommand && c.cancel.Some?
    ensures Lookup(b, c.cancel.value.orderID).Some? ==>
              AllExplained(c, [CanceledChange(Lookup(b, c.cancel.value.orderID).value)])
  {
    hide SoundBook, Lookup;
    LookupSound(b, c.cancel.value.orderID);
  }

  // ----- the order of the batch -----

  lemma {:induction false} LogsAreFills(p: Precision, ticker: string, opposite: seq<Order>, taker: Order, n: nat)
    ensures var g := Greedy(p, ticker, opposite, taker, n);
            |g.logs| == |g.fills| && forall i :: 0 <= i < |g.logs| ==> g.logs[i].amount == g.fills[i].filledAmount
    decreases |opposite|, if taker.amount > 0 then taker.amount else 0
  {
    hide Greedy;
    StepUnfolds(p, ticker, opposite, taker, n);
    if Steps(p, opposite, taker) {
      var t := Traded(opposite, taker);
      var g := Greedy(p, ticker, opposite, taker, n);
      LogsAreFills(p, ticker, Eaten(opposite, t), Remaining(opposite, taker), n + 1);
      forall i | 0 < i < |g.logs| ensures g.logs[i] == g.logs[1..][i - 1] && g.fills[i] == g.fills[1..][i - 1] {
      }
    }
  }

  lemma {:induction false} MakerChangesAre(fills: seq<MakerFill>)
    ensures |MakerChanges(fills)| == |fills| && forall i :: 0 <= i < |fills| ==> MakerChanges(fills)[i] == MakerChange(fills[i])
    decreases |fills|
  {
    if fills != [] {
      MakerChangesAre(fills[1..]);
      forall i | 0 < i < |fills| ensures MakerChanges(fills)[i] == MakerChange(fills[i]) {
        assert MakerChanges(fills)[i] == MakerChanges(fills[1..])[i - 1];
      }
    }
  }

  /** The i-th execution is announced by the i-th maker: the opposite order as it was, and what it gave. */
  predicate Announces(ch: Change, maker: Order, log: MatchLog) {
    && ch.order == maker && ch.order.id == log.makerOrderID && ch.filledAmount == log.amount
    && ch.previousPrice == ch.price == log.price && ch.previousAmount == maker.amount
  }

  /** What a match announces, in order: what came before it, its makers one by one, its taker, and the remainder. */
  ghost predicate LaidOut(first: seq<Change>, opposite: seq<Order>, order: Order, isNew: bool, logs: seq<MatchLog>, changes: seq<Change>) {
    var n, k := |first|, |first| + |logs|;
    && |logs| <= |opposite| && k <= |changes| && changes[..n] == first
    && (forall i :: 0 <= i < |logs| ==> Announces(changes[n + i], opposite[i], logs[i]))
    && (logs != [] ==> k < |changes| && changes[k].order == order && changes[k].filledAmount == LogTotal(logs)
                       && changes[k].previousAmount == order.amount)
    && (forall i :: (if logs == [] then k else k + 1) <= i < |changes| ==>
          isNew && i == |changes| - 1 && changes[i].order == order && changes[i].filledAmount == 0
          && changes[i].previousAmount == order.amount - LogTotal(logs))
  }

  lemma Assembled(first: seq<Change>, opposite: seq<Order>, order: Order, isNew: bool, logs: seq<MatchLog>,
                  makers: seq<Change>, taker: seq<Change>, remainder: seq<Change>)
    requires |logs| <= |opposite| && |makers| == |logs|
    requires forall i :: 0 <= i < |logs| ==> Announces(makers[i], opposite[i], logs[i])
    requires if logs == [] then taker == []
             else |taker| == 1 && taker[0].order == order && taker[0].filledAmount == LogTotal(logs) && taker[0].previousAmount == order.amount
    requires |remainder| <= 1 && (remainder != [] ==> isNew && remainder[0].order == order && remainder[0].filledAmount == 0
                                                      && remainder[0].previousAmount == order.amount - LogTotal(logs))
    ensures LaidOut(first, opposite, order, isNew, logs, first + makers + taker + remainder)
  {
    hide Announces, LogTotal;
  }

  /** What the taker and its remainder announce, when total lots were traded. */
  lemma TakerLaidOut(order: Order, left: int, total: int)
    requires order.amount - left == total && 0 <= left && 0 <= total
    ensures var t := TakerChanges(order, total, left);
            if total == 0 then t == [] else |t| == 1 && t[0].order == order && t[0].filledAmount == total && t[0].previousAmount == order.amount
    ensures var r := RemainderChanges(order, left);
            |r| <= 1 && (r != [] ==> r[0].order == order && r[0].filledAmount == 0 && r[0].previousAmount == order.amount - total)
  {
  }

  /** The maker events of a match announce its executions one by one. */
  lemma MakersAnnounce(p: Precision, ticker: string, s: seq<Order>, order: Order)
    requires Positive(s)
    ensures var g := Greedy(p, ticker, s, order, 0);
            && |g.logs| <= |s| && |MakerChanges(g.fills)| == |g.logs|
            && (forall i :: 0 <= i < |g.logs| ==> Announces(MakerChanges(g.fills)[i], s[i], g.logs[i]))
            && LogTotal(g.logs) >= 0 && (g.logs == [] <==> LogTotal(g.logs) == 0)
            && order.amount - g.taker.amount == LogTotal(g.logs)
  {
    hide Greedy, MakerChanges, Leftover, LogTotal, FillTotal;
    var g := Greedy(p, ticker, s, order, 0);
    Shape(p, ticker, s, order, 0);
    Conserves(p, ticker, s, order, 0);
    MakersInOrder(p, ticker, s, order, 0);
    LogsAreFills(p, ticker, s, order, 0);
    MakerChangesAre(g.fills);
    FilledWhenTraded(g.fills);
    forall i | 0 <= i < |g.logs| ensures Announces(MakerChanges(g.fills)[i], s[i], g.logs[i]) {
      assert Records(p, g.logs[i], s[i], order);
    }
  }

  lemma MatchLaidOut(m: Market, b: Book, c: Command, order: Order, isNew: bool, first: seq<Change>)
    requires SoundBook(b) && Incoming(order) && Absent(b, order.id)
    ensures var plan := PlanMatch(m, b, c, order, isNew, first);
            plan.Planned? ==> LaidOut(first, b.On(order.side.Opposite()), order, isNew, plan.logs, plan.changes)
  {
    hide Greedy, SoundBook, Absent, MakerChanges, TakerChanges, RemainderChanges, Rest, LaidOut, LogTotal, Announces, Positive;
    var side := order.side.Opposite();
    var s := b.On(side);
    var g := Greedy(m.precision, m.ticker, s, order, 0);
    SoundParts(b, side);
    MatchedBook(m, b, order);
    MakersAnnounce(m.precision, m.ticker, s, order);
    TakerLaidOut(order, g.taker.amount, LogTotal(g.logs));
    Assembled(first, s, order, isNew, g.logs, MakerChanges(g.fills), TakerChanges(order, order.amount - g.taker.amount, g.taker.amount),
              if isNew then RemainderChanges(order, g.taker.amount) else []);
  }

  lemma {:induction false} FilledWhenTraded(fills: seq<MakerFill>)
    requires forall i :: 0 <= i < |fills| ==> fills[i].filledAmount > 0
    ensures FillTotal(fills) >= 0 && (fills == [] <==> FillTotal(fills) == 0)
    decreases |fills|
  {
    if fills != [] {
      FilledWhenTraded(fills[1..]);
    }
  }

  /** Every batch is laid out so; an amendment comes before its match. */
  lemma PlanLaidOut(m: Market, b: Book, c: Command)
    requires SoundBook(b) && (CreatedID(c).Some? ==> Absent(b, CreatedID(c).value)) && PlanCommand(m, b, c).Planned?
    ensures var plan := PlanCommand(m, b, c);
            match c.kind
            case CreateCommand =>
              var order := CreateOrderAt(c.create.value, c.recordedAt);
              LaidOut([], b.On(order.side.Opposite()), order, true, plan.logs, plan.changes)
            case AmendCommand =>
              var edit := EditOf(b, c.amend.value, c.recordedAt);
              if edit.None? then plan.changes == [] && plan.logs == []
              else
                var order := edit.value.after;
                && plan.changes != [] && plan.changes[0].kind == Amended && plan.changes[0].order == order
                && LaidOut([plan.changes[0]], b.On(order.side.Opposite()), order, false, plan.logs, plan.changes)
            case CancelCommand => |plan.changes| <= 1 && plan.logs == []
  {
    hide SoundBook, PlanMatch, ApplyEdit, Absent, LaidOut, Lookup, Withdraw, EditOf;
    match c.kind
    case CreateCommand =>
      CreatedIncoming(c);
      MatchLaidOut(m, b, c, CreateOrderAt(c.create.value, c.recordedAt), true, []);
    case AmendCommand =>
      var edit := EditOf(b, c.amend.value, c.recordedAt);
      if edit.Some? {
        var e := edit.value;
        EditSound(b, c.amend.value, c.recordedAt);
        OnlyAmended(b.On(e.after.side.Opposite()), e);
        if e.requiresRematch {
          MatchLaidOut(m, ApplyEdit(b, e), c, e.after, false, [AmendedChange(e.before, e.after)]);
          FirstLaidOut(m, ApplyEdit(b, e), c, e);
          OppositeKept(b, c.amend.value, c.recordedAt);
        }
      }
    case CancelCommand =>
  }

  lemma OnlyAmended(opposite: seq<Order>, e: Edit)
    ensures var ch := AmendedChange(e.before, e.after);
            ch.kind == Amended && ch.order == e.after && LaidOut([ch], opposite, e.after, false, [], [ch])
  {
  }

  lemma FirstLaidOut(m: Market, b: Book, c: Command, e: Edit)
    ensures var plan := PlanMatch(m, b, c, e.after, false, [AmendedChange(e.before, e.after)]);
            plan.Planned? ==> plan.changes != [] && plan.changes[0] == AmendedChange(e.before, e.after)
  {
    hide Greedy, MakerChanges, TakerChanges, Rest;
  }

  // ----- the stamp -----

  /** What an event takes over from its command, its market and its change. */
  predicate StampedBy(m: Market, c: Command, ch: Change, i: int, e: Event) {
    && e.commandID == c.commandID && e.commandSequence == c.sequence && e.eventIndex == i && e.ticker == c.ticker
    && e.marketConfigVersion == m.precision.configVersion && e.occurredAt == c.recordedAt
    && e.eventID.ticker == c.ticker && e.eventID.commandID == c.commandID && e.eventID.orderID == ch.order.id
    && e.eventID.kind == ch.kind && e.eventID.eventIndex == i
    && e.orderID == ch.order.id && e.userID == ch.order.userID && e.orderType == ch.order.orderType && e.side == ch.order.side
    && e.kind == ch.kind && e.reason == ch.reason && e.previousPrice == ch.previousPrice && e.price == ch.price
    && e.previousAmount == ch.previousAmount && e.filledAmount == ch.filledAmount
    && e.canceledAmount == ch.canceledAmount && e.remainingAmount == ch.remainingAmount
  }

  /** A valid batch carries its command's id, sequence, ticker and time, the market's version, and its changes in order. */
  lemma BatchIsStamped(m: Market, b: Book, c: Command)
    requires PlanCommand(m, b, c).Planned? && AllValid(EventsOf(PlanCommand(m, b, c)))
    ensures var plan := PlanCommand(m, b, c);
            var events := EventsOf(plan);
            |events| == |plan.changes| && forall i :: 0 <= i < |events| ==> StampedBy(m, c, plan.changes[i], i, events[i])
  {
    hide PlanCommand, ValidEvent;
    var plan := PlanCommand(m, b, c);
    PlannedCommand(m, b, c);
    ValidBatchNumbered(plan.command, plan.changes);
  }
}
