/**
 * Whole runs: the journal of one ticker applied from an empty book. A run stops at the first command
 * that fails; up to there every property below holds after every command.
 */
module Runs {
  import opened Models
  import opened Numeric
  import opened FlatBook
  import opened Matching
  import opened MatchingLaws
  import opened Journal
  import opened OrderEvents
  import opened Execution
  import opened BookLaws
  import opened Lifecycle
  import opened Stores

  /** The book, every execution and event produced so far, and whether every command applied. */
  datatype Run = Run(book: Book, logs: seq<MatchLog>, events: seq<Event>, ok: bool)

  const START := Run(EMPTY_BOOK, [], [], true)

  /** One more command, its rows always stored. */
  function Advance(m: Market, r: Run, c: Command): Run {
    if !r.ok then r
    else
      var plan := PlanCommand(m, r.book, c);
      match plan
      case Refused => r.(ok := false)
      case Broken(book) => r.(book := book, ok := false)
      case Planned(matched, logs, final, _, _) =>
        if LogRows(logs).None? then r.(book := matched, ok := false)
        else if EventRows(EventsOf(plan)).None? then Run(final, r.logs + logs, r.events, false)
        else Run(final, r.logs + logs, r.events + EventsOf(plan), true)
  }

  function Replayed(m: Market, cmds: seq<Command>): Run {
    if cmds == [] then START else Advance(m, Replayed(m, cmds[..|cmds| - 1]), cmds[|cmds| - 1])
  }

  /** The i-th command applies to the book the ones before it left. */
  predicate AppliesAt(m: Market, cmds: seq<Command>, i: nat)
    requires i < |cmds|
  {
    Applies(m, Replayed(m, cmds[..i]).book, cmds[i])
  }

  /** A run goes on exactly as long as its commands apply. */
  lemma {:induction false} RunOkIff(m: Market, cmds: seq<Command>)
    ensures Replayed(m, cmds).ok <==> forall i :: 0 <= i < |cmds| ==> AppliesAt(m, cmds, i)
    decreases |cmds|
  {
    hide Advance, Applies, AppliesAt;
    if cmds != [] {
      var n := |cmds| - 1;
      RunOkIff(m, cmds[..n]);
      AdvanceOkIff(m, Replayed(m, cmds[..n]), cmds[n]);
      AppliesAtIs(m, cmds, n);
      forall i | 0 <= i < n ensures AppliesAt(m, cmds[..n], i) == AppliesAt(m, cmds, i) {
        AppliesAtIs(m, cmds[..n], i);
        AppliesAtIs(m, cmds, i);
        assert cmds[..n][..i] == cmds[..i];
      }
    }
  }

  lemma AppliesAtIs(m: Market, cmds: seq<Command>, i: nat)
    requires i < |cmds|
    ensures AppliesAt(m, cmds, i) == Applies(m, Replayed(m, cmds[..i]).book, cmds[i])
  {
    hide Applies, Replayed;
  }

  lemma AdvanceOkIff(m: Market, r: Run, c: Command)
    ensures Advance(m, r, c).ok <==> r.ok && Applies(m, r.book, c)
  {
    hide PlanCommand, LogRows, AllValid, EventRows, Stamped;
    var plan := PlanCommand(m, r.book, c);
    if plan.Planned? {
      StoredEventsValid(EventsOf(plan));
    }
  }

  /** The assumption the engine makes of its callers: no two creates make the same identity. */
  ghost predicate FreshIDs(cmds: seq<Command>) {
    forall i, k :: 0 <= i < k < |cmds| && CreatedID(cmds[i]).Some? ==> CreatedID(cmds[i]) != CreatedID(cmds[k])
  }

  function AllCreated(cmds: seq<Command>): set<OrderID> {
    set i | 0 <= i < |cmds| && CreatedID(cmds[i]).Some? :: CreatedID(cmds[i]).value
  }

  lemma FreshPrefix(cmds: seq<Command>)
    requires cmds != [] && FreshIDs(cmds)
    ensures var front := cmds[..|cmds| - 1];
            FreshIDs(front) && CreatedSet(cmds[|cmds| - 1]) !! AllCreated(front) && AllCreated(front) + CreatedSet(cmds[|cmds| - 1]) == AllCreated(cmds)
  {
    var n := |cmds| - 1;
    var front := cmds[..n];
    assert forall i :: 0 <= i < n ==> front[i] == cmds[i];
    forall id | id in AllCreated(cmds) ensures id in AllCreated(front) + CreatedSet(cmds[n]) {
      var i :| 0 <= i < |cmds| && CreatedID(cmds[i]) == Some(id);
      if i < n {
        assert CreatedID(front[i]) == Some(id);
      }
    }
    forall id | id in AllCreated(front) + CreatedSet(cmds[n]) ensures id in AllCreated(cmds) {
      if id in AllCreated(front) {
        var i :| 0 <= i < n && CreatedID(front[i]) == Some(id);
        assert CreatedID(cmds[i]) == Some(id);
      } else {
        assert CreatedID(cmds[n]) == Some(id);
      }
    }
  }

  // ----- soundness and event sourcing -----

  /** Every order the commands create, alive at the side, price and amount of its create command. */
  function Births(cmds: seq<Command>): Lives {
    if cmds == [] then map[] else Admit(Births(cmds[..|cmds| - 1]), cmds[|cmds| - 1])
  }

  /** The projection of a run's whole event stream, from the orders as they were created. */
  ghost predicate Projects(born: Lives, r: Run, lives: Lives) {
    Project(born, r.events) == Some(lives) && Mirrors(lives, r.book, {}) && lives.Keys == born.Keys
  }

  lemma StoredEventsValid(events: seq<Event>)
    ensures EventRows(events).Some? <==> AllValid(events)
  {
    if events != [] {
      StoredEventsValid(events[1..]);
      if AllValid(events[1..]) && ValidEvent(events[0]) {
        forall i | 0 <= i < |events| ensures ValidEvent(events[i]) {
          if i > 0 { assert events[i] == events[1..][i - 1]; }
        }
      }
    }
  }

  lemma AdvanceProjects(m: Market, r: Run, c: Command, born: Lives, lives: Lives) returns (next: Lives)
    requires r.ok && SoundBook(r.book) && Projects(born, r, lives) && CreatedSet(c) !! born.Keys
    ensures SoundBook(Advance(m, r, c).book)
    ensures Advance(m, r, c).ok ==> Projects(Admit(born, c), Advance(m, r, c), next)
  {
    hide SoundBook, Mirrors, PlanCommand, Project, Follow;
    if CreatedID(c).Some? {
      UnseenIsAbsent(lives, r.book, CreatedID(c).value);
    }
    PlanSound(m, r.book, c);
    PlanFollows(m, r.book, c, lives);
    var plan := PlanCommand(m, r.book, c);
    next := lives;
    if Advance(m, r, c).ok {
      next := Follow(Admit(lives, c), plan.changes).value;
      if CreatedID(c).Some? {
        ProjectFrame(born, r.events, CreatedID(c).value, Admit(born, c)[CreatedID(c).value]);
      }
      ProjectIsFollow(Admit(lives, c), EventsOf(plan), plan.command, plan.changes, 0);
      ProjectConcat(Admit(born, c), r.events, EventsOf(plan));
    }
  }

  /**
   * Event sourcing. After any error-free run, folding the whole event stream over the orders as they were
   * created succeeds: every order's first event starts at the side, price and amount of its create
   * command, every later one continues exactly where the one before ended, nothing follows a closing
   * event, and the orders left alive, with their prices and amounts, are exactly those resting on the
   * book. The book itself is sound after every run, whether or not its last command failed.
   */
  lemma {:induction false} EventSourcing(m: Market, cmds: seq<Command>) returns (lives: Lives)
    requires FreshIDs(cmds)
    ensures SoundBook(Replayed(m, cmds).book) && Births(cmds).Keys == AllCreated(cmds)
    ensures Replayed(m, cmds).ok ==> Projects(Births(cmds), Replayed(m, cmds), lives)
    decreases |cmds|
  {
    if cmds == [] {
      lives := map[];
    } else {
      FreshPrefix(cmds);
      lives := EventSourcing(m, cmds[..|cmds| - 1]);
      if Replayed(m, cmds[..|cmds| - 1]).ok {
        lives := AdvanceProjects(m, Replayed(m, cmds[..|cmds| - 1]), cmds[|cmds| - 1], Births(cmds[..|cmds| - 1]), lives);
      }
    }
  }

  /** The book is never crossed and no market order ever rests, after every command of every run. */
  lemma NeverCrossed(m: Market, cmds: seq<Command>)
    requires FreshIDs(cmds)
    ensures var b := Replayed(m, cmds).book;
            && (b.bids != [] && b.asks != [] ==> b.bids[0].price < b.asks[0].price)
            && (forall i :: 0 <= i < |b.bids| ==> b.bids[i].orderType == Limit && b.bids[i].price <= b.bids[0].price)
            && (forall i :: 0 <= i < |b.asks| ==> b.asks[i].orderType == Limit && b.asks[i].price >= b.asks[0].price)
  {
    var lives := EventSourcing(m, cmds);
    var b := Replayed(m, cmds).book;
    forall i | 0 <= i < |b.bids| ensures b.bids[i].price <= b.bids[0].price {
      if i > 0 { assert !Better(Bid, b.bids[i].price, b.bids[0].price); }
    }
    forall i | 0 <= i < |b.asks| ensures b.asks[i].price >= b.asks[0].price {
      if i > 0 { assert !Better(Ask, b.asks[i].price, b.asks[0].price); }
    }
  }

  /** A command that announces nothing leaves the book as it was. */
  lemma SilentChangesNothing(m: Market, b: Book, c: Command)
    requires SoundBook(b) && (CreatedID(c).Some? ==> Absent(b, CreatedID(c).value))
    requires PlanCommand(m, b, c).Planned? && PlanCommand(m, b, c).changes == []
    ensures var plan := PlanCommand(m, b, c);
            plan.matched == b && plan.final == b && plan.logs == [] && c.kind != CreateCommand
  {
    if c.kind == CreateCommand {
      var order := CreateOrderAt(c.create.value, c.recordedAt);
      MatchedBook(m, b, order);
    }
  }
}
