/** Durable order lifecycle events: what makes one valid, and how the events of one command are built. */
module OrderEvents {
  import opened Models
  import opened Texts
  import opened Journal
  import opened Matching

  datatype EventType = Resting | PartiallyFilled | Filled | Amended | Canceled | RemainderCanceled

  datatype Reason =
    | NoReason | NoMatch | PartialFill | PriceChanged | AmountIncreased | AmountDecreased | UserRequest | InsufficientLiquidity

  /** Stands for the digest of these five values. */
  datatype EventID = EventID(ticker: string, commandID: string, orderID: OrderID, kind: EventType, eventIndex: int)

  datatype Event = Event(
    eventID: EventID,
    commandID: string,
    commandSequence: int,
    eventIndex: int,
    orderID: OrderID,
    userID: string,
    ticker: string,
    kind: EventType,
    reason: Reason,
    orderType: OrderType,
    side: Side,
    previousPrice: int,
    price: int,
    previousAmount: int,
    filledAmount: int,
    canceledAmount: int,
    remainingAmount: int,
    marketConfigVersion: int,
    occurredAt: Time)

  predicate ValidPrices(e: Event) {
    && e.previousPrice >= 0 && e.price >= 0
    && if e.orderType == Market then e.previousPrice == 0 && e.price == 0 else e.previousPrice > 0 && e.price > 0
  }

  predicate ValidTransition(e: Event) {
    match e.kind
    case Resting =>
      e.filledAmount == 0 && e.canceledAmount == 0 && e.remainingAmount > 0 && e.previousAmount == e.remainingAmount
    case PartiallyFilled =>
      && e.filledAmount > 0 && e.canceledAmount == 0 && e.remainingAmount > 0
      && e.previousAmount == e.filledAmount + e.remainingAmount
    case Filled =>
      e.filledAmount > 0 && e.canceledAmount == 0 && e.remainingAmount == 0 && e.previousAmount == e.filledAmount
    case Amended =>
      e.filledAmount == 0 && e.canceledAmount == 0 && e.remainingAmount > 0
    case Canceled =>
      e.filledAmount == 0 && e.canceledAmount > 0 && e.remainingAmount == 0 && e.previousAmount == e.canceledAmount
    case RemainderCanceled =>
      e.filledAmount == 0 && e.canceledAmount > 0 && e.remainingAmount == 0 && e.previousAmount == e.canceledAmount
  }

  predicate ValidEvent(e: Event) {
    && !IsBlank(e.commandID) && e.commandSequence > 0 && e.eventIndex >= 0
    && !IsBlankID(e.orderID) && !IsBlank(e.userID) && !IsBlank(e.ticker)
    && ValidPrices(e)
    && e.previousAmount > 0 && e.filledAmount >= 0 && e.canceledAmount >= 0 && e.remainingAmount >= 0
    && e.marketConfigVersion >= 0 && e.occurredAt != ZeroTime
    && e.eventID == EventID(e.ticker, e.commandID, e.orderID, e.kind, e.eventIndex)
    && ValidTransition(e)
  }

  // ----- one change of one order, before it is stamped with its command -----

  datatype Change = Change(
    order: Order,
    kind: EventType,
    reason: Reason,
    previousPrice: int,
    price: int,
    previousAmount: int,
    filledAmount: int,
    canceledAmount: int,
    remainingAmount: int)

  function MakerChange(f: MakerFill): Change {
    if f.remainingAmount == 0
    then Change(f.order, Filled, NoReason, f.order.price, f.order.price, f.previousAmount, f.filledAmount, 0, f.remainingAmount)
    else Change(f.order, PartiallyFilled, PartialFill, f.order.price, f.order.price, f.previousAmount, f.filledAmount, 0, f.remainingAmount)
  }

  function MakerChanges(fills: seq<MakerFill>): (changes: seq<Change>)
    ensures |changes| == |fills|
  {
    if fills == [] then [] else [MakerChange(fills[0])] + MakerChanges(fills[1..])
  }

  function TakerChanges(order: Order, filled: int, remaining: int): seq<Change> {
    if filled <= 0 then []
    else if remaining == 0
    then [Change(order, Filled, NoReason, order.price, order.price, order.amount, filled, 0, remaining)]
    else [Change(order, PartiallyFilled, PartialFill, order.price, order.price, order.amount, filled, 0, remaining)]
  }

  function RestingChange(order: Order): Change {
    Change(order, Resting, NoMatch, order.price, order.price, order.amount, 0, 0, order.amount)
  }

  function AmendedChange(before: Order, after: Order): Change {
    var reason :=
      if before.price != after.price then PriceChanged
      else if before.amount < after.amount then AmountIncreased else AmountDecreased;
    Change(after, Amended, reason, before.price, after.price, before.amount, 0, 0, after.amount)
  }

  function CanceledChange(order: Order): Change {
    Change(order, Canceled, UserRequest, order.price, order.price, order.amount, 0, order.amount, 0)
  }

  function RemainderCanceledChange(order: Order, remaining: int): Change {
    Change(order, RemainderCanceled, InsufficientLiquidity, order.price, order.price, remaining, 0, remaining, 0)
  }

  /** Conversion of a length to int32 wraps around. */
  function Wrap32(x: int): (w: int)
    ensures -0x8000_0000 <= w < 0x8000_0000
    ensures -0x8000_0000 <= x < 0x8000_0000 ==> w == x
  {
    (x + 0x8000_0000) % 0x1_0000_0000 - 0x8000_0000
  }

  function Stamp(c: Command, change: Change, n: nat): Event {
    var index := Wrap32(n);
    Event(EventID(c.ticker, c.commandID, change.order.id, change.kind, index), c.commandID, c.sequence, index,
          change.order.id, change.order.userID, c.ticker, change.kind, change.reason, change.order.orderType,
          change.order.side, change.previousPrice, change.price, change.previousAmount, change.filledAmount,
          change.canceledAmount, change.remainingAmount, c.marketConfigVersion, c.recordedAt)
  }

  /** The event batch of a command: its changes in order, each stamped with its position. */
  function Stamped(c: Command, changes: seq<Change>): (events: seq<Event>)
    ensures |events| == |changes|
    ensures forall i :: 0 <= i < |events| ==> events[i] == Stamp(c, changes[i], i)
  {
    seq(|changes|, i requires 0 <= i < |changes| => Stamp(c, changes[i], i))
  }

  predicate AllValid(events: seq<Event>) {
    forall i :: 0 <= i < |events| ==> ValidEvent(events[i])
  }

  class OrderEventBuilder {
    const command: Command
    var events: seq<Event>
    ghost var changes: seq<Change>

    ghost predicate Valid()
      reads this
    {
      events == Stamped(command, changes)
    }

    constructor (command: Command)
      ensures Valid() && changes == [] && this.command == command
    {
      this.command := command;
      events, changes := [], [];
    }

    method Add(change: Change)
      requires Valid()
      modifies this
      ensures Valid() && changes == old(changes) + [change]
    {
      events := events + [Stamp(command, change, |events|)];
      changes := changes + [change];
    }

    method AddMakerFills(transitions: seq<MakerFill>)
      requires Valid()
      modifies this
      ensures Valid() && changes == old(changes) + MakerChanges(transitions)
    {
      var i := 0;
      while i < |transitions|
        invariant 0 <= i <= |transitions| && Valid()
        invariant old(changes) + MakerChanges(transitions) == changes + MakerChanges(transitions[i..])
      {
        Add(MakerChange(transitions[i]));
        i := i + 1;
      }
    }

    method AddTakerFill(order: Order, filled: int, remaining: int)
      requires Valid()
      modifies this
      ensures Valid() && changes == old(changes) + TakerChanges(order, filled, remaining)
    {
      if filled <= 0 {
        return;
      }
      var kind, reason := PartiallyFilled, PartialFill;
      if remaining == 0 {
        kind, reason := Filled, NoReason;
      }
      Add(Change(order, kind, reason, order.price, order.price, order.amount, filled, 0, remaining));
    }

    /** The batch, or nothing if any of its events is invalid. */
    method Finish() returns (batch: Option<seq<Event>>)
      requires Valid()
      ensures batch == if AllValid(Stamped(command, changes)) then Some(Stamped(command, changes)) else None
    {
      var i := 0;
      while i < |events|
        invariant 0 <= i <= |events|
        invariant forall j :: 0 <= j < i ==> ValidEvent(events[j])
      {
        if !ValidEvent(events[i]) {
          return None;
        }
        i := i + 1;
      }
      return Some(events);
    }
  }
}
