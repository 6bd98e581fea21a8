/**
 * What one journalled command does: the executions to record, the order changes to announce, and the
 * book before and after the residual rests. This is the specification of BookWorker.applyCommand.
 */
module Execution {
  import opened Models
  import opened Numeric
  import opened FlatBook
  import opened Matching
  import opened Journal
  import opened OrderEvents
  import opened Stores

  /** The market one worker serves. */
  datatype Market = Market(ticker: string, precision: Precision)

  /**
   * Refused: the command is rejected before the book is touched. Broken: matching failed on a quote,
   * with the earlier executions applied. Planned: matched is the book after matching, final after the
   * residual rests, and command carries its effective configuration version.
   */
  datatype Plan =
    | Refused
    | Broken(book: Book)
    | Planned(matched: Book, logs: seq<MatchLog>, final: Book, command: Command, changes: seq<Change>)

  const EMPTY_BOOK := Book([], [])

  predicate Accepts(m: Market, c: Command) {
    && Validate(c)
    && (c.marketConfigVersion == 0 || c.marketConfigVersion == m.precision.configVersion)
    && c.recordedAt != ZeroTime
  }

  /** The command with a missing configuration version filled in. */
  function Versioned(m: Market, c: Command): Command {
    if c.marketConfigVersion == 0 then c.(marketConfigVersion := m.precision.configVersion) else c
  }

  /** What is announced about a taker's unfilled remainder when the order is new. */
  function RemainderChanges(order: Order, remaining: int): seq<Change> {
    if remaining <= 0 then []
    else if order.orderType == OrderType.Market then [RemainderCanceledChange(order, remaining)]
    else if remaining < order.amount then []
    else [RestingChange(order)]
  }

  /**
   * Matches an order and settles its residual. A new market order's residual is cancelled; every
   * other residual rests. The changes in first come before those of the match.
   */
  function PlanMatch(m: Market, b: Book, c: Command, order: Order, isNew: bool, first: seq<Change>): Plan {
    var g := Greedy(m.precision, m.ticker, b.On(order.side.Opposite()), order, 0);
    var matched := b.With(order.side.Opposite(), g.opposite);
    if !g.ok then Broken(matched)
    else
      var filled := order.amount - g.taker.amount;
      var changes := first + MakerChanges(g.fills) + TakerChanges(order, filled, g.taker.amount)
                     + (if isNew then RemainderChanges(order, g.taker.amount) else []);
      var rests := g.taker.amount > 0 && !(isNew && order.orderType == OrderType.Market);
      Planned(matched, g.logs, if rests then Rest(matched, g.taker) else matched, Versioned(m, c), changes)
  }

  function PlanCommand(m: Market, b: Book, c: Command): Plan {
    if !Accepts(m, c) then Refused
    else match c.kind
      case CreateCommand =>
        PlanMatch(m, b, c, CreateOrderAt(c.create.value, c.recordedAt), true, [])
      case AmendCommand =>
        (match EditOf(b, c.amend.value, c.recordedAt)
         case None => Planned(b, [], b, Versioned(m, c), [])
         case Some(e) =>
           if e.requiresRematch
           then PlanMatch(m, ApplyEdit(b, e), c, e.after, false, [AmendedChange(e.before, e.after)])
           else Planned(ApplyEdit(b, e), [], ApplyEdit(b, e), Versioned(m, c), [AmendedChange(e.before, e.after)]))
      case CancelCommand =>
        (match Lookup(b, c.cancel.value.orderID)
         case None => Planned(b, [], b, Versioned(m, c), [])
         case Some(o) => Planned(Withdraw(b, o), [], Withdraw(b, o), Versioned(m, c), [CanceledChange(o)]))
  }

  /** The event batch of a planned command. */
  function EventsOf(plan: Plan): seq<Event>
    requires plan.Planned?
  {
    Stamped(plan.command, plan.changes)
  }

  /** The command applies without error: it is accepted, matches, and both its batches can be stored. */
  predicate Applies(m: Market, b: Book, c: Command) {
    var plan := PlanCommand(m, b, c);
    plan.Planned? && LogRows(plan.logs).Some? && AllValid(EventsOf(plan))
  }
}
