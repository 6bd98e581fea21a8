/**
 * Dispatch under the router's read/write lock, as a step system: any number of callers, the workers,
 * their queues, a shared halt cause, and shutdown. Every interleaving of steps is a run.
 */
module Dispatch {
  import opened Models

  /** Where one call of the router stands. Reading from Entered to Answered, it holds the read lock. */
  datatype Stage = Entered | Cleared | Waiting | Answered | Served | Refused

  datatype Call = Call(ticker: string, command: bool, stage: Stage)

  /** Admitted: past the halt check, not yet applied. */
  datatype Phase = Idle | Admitted(request: nat) | Applied(request: nat)

  datatype WorkerState = WorkerState(ticker: string, queue: seq<nat>, open: bool, phase: Phase, done: bool)

  /** One command taking effect, with what was true at that moment. */
  datatype Effect = Effect(worker: nat, request: nat, late: bool, afterFailure: bool)

  /**
   * registry and closed are the router's fields, cause the engine state's. writer is the shutdown that
   * holds the write lock, with the workers whose queues it has still to close. sent, answers and effects
   * are the history; dropped are the calls no one will answer; panicked: a send on or a close of a
   * closed queue.
   */
  datatype System = System(
    registry: map<string, nat>,
    workers: map<nat, WorkerState>,
    closed: bool,
    writer: Option<set<nat>>,
    calls: map<nat, Call>,
    cause: Option<string>,
    failed: set<nat>,
    sent: seq<nat>,
    answers: seq<nat>,
    dropped: set<nat>,
    effects: seq<Effect>,
    panicked: bool)

  const START := System(map[], map[], false, None, map[], None, {}, [], [], {}, [], false)

  datatype Step =
    | Register(ticker: string, worker: nat, served: string)
    | Enter(request: nat, ticker: string, command: bool)
    | Check(request: nat)
    | Send(request: nat)
    | Return(request: nat)
    | Receive(worker: nat)
    | Apply(worker: nat)
    | Finish(worker: nat, failure: Option<string>)
    | Exit(worker: nat)
    | HaltElsewhere(reason: string)
    | Lock
    | Close(worker: nat)
    | Unlock

  predicate Reading(c: Call) {
    c.stage != Served && c.stage != Refused
  }

  ghost predicate NoReaders(s: System) {
    forall r :: r in s.calls ==> !Reading(s.calls[r])
  }

  function At(s: System, r: nat, stage: Stage): System
    requires r in s.calls
  {
    s.(calls := s.calls[r := s.calls[r].(stage := stage)])
  }

  /** Only the first cause is kept. */
  function Halt(s: System, failure: string): System {
    s.(cause := if s.cause.Some? then s.cause else Some(failure))
  }

  ghost predicate HasCall(s: System, r: nat, stage: Stage) {
    r in s.calls && s.calls[r].stage == stage
  }

  /** A caller's checks, with the read lock held. */
  function Checked(s: System, r: nat): Stage
    requires r in s.calls
  {
    var c := s.calls[r];
    if s.closed || c.ticker == "" || c.ticker !in s.registry || (c.command && s.cause.Some?) then Refused else Cleared
  }

  function Sent(s: System, r: nat): System
    requires r in s.calls && s.calls[r].ticker in s.registry && s.registry[s.calls[r].ticker] in s.workers
  {
    var w := s.registry[s.calls[r].ticker];
    var state := s.workers[w];
    if !state.open then s.(panicked := true)
    else s.(calls := s.calls[r := s.calls[r].(stage := Waiting)], sent := s.sent + [r],
            workers := s.workers[w := state.(queue := state.queue + [r])])
  }

  datatype Reception = Reply | Drop | Admit

  /** A halted engine or a wrong ticker is answered at once, but a snapshot of a wrong ticker is not. */
  function Receiving(s: System, state: WorkerState, c: Call): Reception {
    if c.command && s.cause.Some? then Reply
    else if c.ticker != state.ticker then (if c.command then Reply else Drop)
    else if c.command then Admit else Reply
  }

  /** A worker takes the next event. */
  function Received(s: System, w: nat): System
    requires w in s.workers && s.workers[w].queue != [] && s.workers[w].queue[0] in s.calls && s.workers[w].phase == Idle
  {
    var state := s.workers[w];
    var r := state.queue[0];
    var what := Receiving(s, state, s.calls[r]);
    s.(workers := s.workers[w := state.(queue := state.queue[1..], phase := if what == Admit then Admitted(r) else Idle)],
       calls := if what == Reply then s.calls[r := s.calls[r].(stage := Answered)] else s.calls,
       answers := if what == Reply then s.answers + [r] else s.answers,
       dropped := if what == Drop then s.dropped + {r} else s.dropped)
  }

  /** A worker answers the command it holds; a failure halts the engine before the answer. */
  function Finished(s: System, w: nat, failure: Option<string>): System
    requires w in s.workers && s.workers[w].phase != Idle && s.workers[w].phase.request in s.calls
  {
    var r := s.workers[w].phase.request;
    s.(workers := s.workers[w := s.workers[w].(phase := Idle)],
       calls := s.calls[r := s.calls[r].(stage := Answered)],
       answers := s.answers + [r],
       cause := if failure.Some? then Halt(s, failure.value).cause else s.cause,
       failed := if failure.Some? then s.failed + {w} else s.failed)
  }

  /** One step; a step that is not enabled changes nothing. */
  ghost function Take(s: System, step: Step): System {
    match step
    case Register(ticker, w, served) =>
      if s.writer.None? && NoReaders(s) && ticker != "" && !s.closed && ticker !in s.registry
      then s.(registry := s.registry[ticker := w],
              workers := if w in s.workers then s.workers else s.workers[w := WorkerState(served, [], true, Idle, false)])
      else s
    case Enter(r, ticker, command) =>
      if s.writer.None? && r !in s.calls then s.(calls := s.calls[r := Call(ticker, command, Entered)]) else s
    case Check(r) =>
      if HasCall(s, r, Entered) then At(s, r, Checked(s, r)) else s
    case Send(r) =>
      if HasCall(s, r, Cleared) && s.calls[r].ticker in s.registry && s.registry[s.calls[r].ticker] in s.workers
      then Sent(s, r) else s
    case Return(r) =>
      if HasCall(s, r, Answered) then At(s, r, Served) else s
    case Receive(w) =>
      if w in s.workers && s.workers[w].phase == Idle && s.workers[w].queue != [] && s.workers[w].queue[0] in s.calls
      then Received(s, w) else s
    case Apply(w) =>
      if w in s.workers && s.workers[w].phase.Admitted?
      then s.(workers := s.workers[w := s.workers[w].(phase := Applied(s.workers[w].phase.request))],
              effects := s.effects + [Effect(w, s.workers[w].phase.request, s.cause.Some?, w in s.failed)])
      else s
    case Finish(w, failure) =>
      if w in s.workers && s.workers[w].phase != Idle && s.workers[w].phase.request in s.calls
      then Finished(s, w, failure) else s
    case Exit(w) =>
      if w in s.workers && !s.workers[w].open && s.workers[w].queue == [] && s.workers[w].phase == Idle
      then s.(workers := s.workers[w := s.workers[w].(done := true)]) else s
    case HaltElsewhere(reason) => Halt(s, reason)
    case Lock =>
      if s.writer.None? && NoReaders(s)
      then s.(closed := true, writer := Some(if s.closed then {} else s.registry.Values)) else s
    case Close(w) =>
      if s.writer.Some? && w in s.writer.value && w in s.workers
      then (if !s.workers[w].open then s.(panicked := true)
            else s.(workers := s.workers[w := s.workers[w].(open := false)], writer := Some(s.writer.value - {w})))
      else s
    case Unlock =>
      if s.writer == Some({}) then s.(writer := None) else s
  }

  ghost function Perform(steps: seq<Step>): System {
    if steps == [] then START else Take(Perform(steps[..|steps| - 1]), steps[|steps| - 1])
  }

  // ----- the lock -----

  /** The worker a call is or will be sent to. */
  ghost predicate Routed(s: System, r: nat, w: nat) {
    r in s.calls && s.calls[r].ticker in s.registry && s.registry[s.calls[r].ticker] == w
  }

  ghost predicate LockOK(s: System) {
    && !s.panicked
    && (forall t :: t in s.registry ==> s.registry[t] in s.workers)
    && (s.writer.Some? ==> s.closed && NoReaders(s))
    && (forall r :: r in s.calls && s.calls[r].stage in {Cleared, Waiting, Answered, Served} ==>
          s.calls[r].ticker in s.registry && (s.closed ==> s.calls[r].stage == Served))
    && (!s.closed ==> forall w :: w in s.workers ==> s.workers[w].open)
    && (forall w :: s.writer.Some? && w in s.writer.value ==> w in s.workers && s.workers[w].open)
    && (s.closed ==> forall w :: w in s.workers && s.workers[w].open ==> s.writer.Some? && w in s.writer.value)
    && (forall w :: w in s.workers ==> w in s.registry.Values)
  }

  lemma MoreValues(m: map<string, nat>, t: string, w: nat)
    requires t !in m
    ensures m[t := w].Values == m.Values + {w}
  {
    assert forall k :: k in m ==> m[t := w][k] == m[k];
    assert m[t := w][t] == w;
    forall v | v in m.Values ensures v in m[t := w].Values {
      var k :| k in m && m[k] == v;
      assert m[t := w][k] == v;
    }
  }

  /** Steps of callers and workers: no queue opens or closes, and only readers move. */
  ghost predicate LockUntouched(s: System, next: System) {
    && next.registry == s.registry && next.closed == s.closed && next.writer == s.writer && !next.panicked
    && next.workers.Keys == s.workers.Keys && (forall w :: w in s.workers ==> next.workers[w].open == s.workers[w].open)
    && (forall r :: r in next.calls ==>
          || (r in s.calls && next.calls[r] == s.calls[r])
          || (s.writer.None? && (next.calls[r].stage in {Cleared, Waiting, Answered, Served} ==>
                                   next.calls[r].ticker in s.registry && (s.closed ==> next.calls[r].stage == Served))))
  }

  lemma LockUntouchedKept(s: System, next: System)
    requires LockOK(s) && LockUntouched(s, next)
    ensures LockOK(next)
  {
  }

  lemma RegisterKeepsLock(s: System, ticker: string, w: nat, served: string)
    requires LockOK(s)
    ensures LockOK(Take(s, Register(ticker, w, served)))
  {
    if ticker !in s.registry { MoreValues(s.registry, ticker, w); }
  }

  lemma ShutdownKeepsLock(s: System, step: Step)
    requires LockOK(s) && (step.Lock? || step.Close? || step.Unlock?)
    ensures LockOK(Take(s, step))
  {
  }

  lemma WorkerKeepsLock(s: System, step: Step)
    requires LockOK(s) && PlacedOK(s) && (step.Receive? || step.Finish? || step.Apply? || step.Exit? || step.HaltElsewhere?)
    ensures LockOK(Take(s, step))
  {
    hide LockOK, PlacedOK, NoReaders, HasCall, Sent, Checked;
    var next := Take(s, step);
    if next != s && (step.Receive? || step.Finish?) {
      var state := s.workers[step.worker];
      var r := if step.Receive? then state.queue[0] else state.phase.request;
      WorkersCalls(s, step.worker, r);
    }
    NotPanicked(s);
    LockUntouchedKept(s, next);
  }

  lemma NotPanicked(s: System)
    requires LockOK(s)
    ensures !s.panicked
  {
  }

  /** What a worker holds is a caller's, who holds the read lock. */
  lemma WorkersCalls(s: System, w: nat, r: nat)
    requires LockOK(s) && PlacedOK(s) && w in s.workers && Holds(s.workers[w], r)
    ensures r in s.calls && s.calls[r].stage == Waiting && s.calls[r].ticker in s.registry && !s.closed && s.writer.None?
  {
    assert QueuedOK(s, w) && InFlightOK(s, w);
  }

  lemma EnterKeepsLock(s: System, r: nat, ticker: string, command: bool)
    requires LockOK(s)
    ensures LockOK(Take(s, Enter(r, ticker, command)))
  {
    LockUntouchedKept(s, Take(s, Enter(r, ticker, command)));
  }

  lemma CheckKeepsLock(s: System, r: nat)
    requires LockOK(s)
    ensures LockOK(Take(s, Check(r)))
  {
    LockUntouchedKept(s, Take(s, Check(r)));
  }

  lemma SendKeepsLock(s: System, r: nat)
    requires LockOK(s)
    ensures LockOK(Take(s, Send(r)))
  {
    LockUntouchedKept(s, Take(s, Send(r)));
  }

  lemma ReturnKeepsLock(s: System, r: nat)
    requires LockOK(s)
    ensures LockOK(Take(s, Return(r)))
  {
    LockUntouchedKept(s, Take(s, Return(r)));
  }

  lemma CallerKeepsLock(s: System, step: Step)
    requires LockOK(s) && (step.Enter? || step.Check? || step.Send? || step.Return?)
    ensures LockOK(Take(s, step))
  {
    hide LockOK, Take;
    match step
    case Enter(r, ticker, command) => EnterKeepsLock(s, r, ticker, command);
    case Check(r) => CheckKeepsLock(s, r);
    case Send(r) => SendKeepsLock(s, r);
    case Return(r) => ReturnKeepsLock(s, r);
  }

  lemma TakeKeepsLock(s: System, step: Step)
    requires LockOK(s) && PlacedOK(s)
    ensures LockOK(Take(s, step))
  {
    hide Take;
    if step.Register? {
      RegisterKeepsLock(s, step.ticker, step.worker, step.served);
    } else if step.Lock? || step.Close? || step.Unlock? {
      ShutdownKeepsLock(s, step);
    } else if step.Enter? || step.Check? || step.Send? || step.Return? {
      CallerKeepsLock(s, step);
    } else {
      WorkerKeepsLock(s, step);
    }
  }

  // ----- where each call is -----

  ghost predicate QueuedOK(s: System, w: nat)
    requires w in s.workers
  {
    var q := s.workers[w].queue;
    && (forall i :: 0 <= i < |q| ==> Routed(s, q[i], w) && s.calls[q[i]].stage == Waiting && q[i] !in s.dropped)
    && (forall i, j :: 0 <= i < j < |q| ==> q[i] != q[j])
  }

  ghost predicate InFlightOK(s: System, w: nat)
    requires w in s.workers
  {
    s.workers[w].phase != Idle ==>
      var r := s.workers[w].phase.request;
      Routed(s, r, w) && s.calls[r].stage == Waiting && s.calls[r].command && r !in s.dropped && r !in s.workers[w].queue
  }

  predicate Holds(state: WorkerState, r: nat) {
    r in state.queue || (state.phase != Idle && state.phase.request == r)
  }

  ghost predicate WaitingOK(s: System, r: nat)
    requires r in s.calls
  {
    s.calls[r].stage == Waiting ==>
      r in s.dropped || (s.calls[r].ticker in s.registry && s.registry[s.calls[r].ticker] in s.workers
                         && Holds(s.workers[s.registry[s.calls[r].ticker]], r))
  }

  ghost predicate DroppedOK(s: System, r: nat) {
    && r in s.calls && s.calls[r].stage == Waiting && !s.calls[r].command && s.calls[r].ticker in s.registry
    && var w := s.registry[s.calls[r].ticker]; w in s.workers && s.workers[w].ticker != s.calls[r].ticker
  }

  /** Every waiting call is in exactly one place: its worker's queue, in that worker's hands, or dropped. */
  ghost predicate PlacedOK(s: System) {
    && (forall w :: w in s.workers ==> QueuedOK(s, w) && InFlightOK(s, w))
    && (forall r :: r in s.calls ==> WaitingOK(s, r))
    && (forall r :: r in s.dropped ==> DroppedOK(s, r))
  }

  /** A call that is not waiting moves on without waiting. */
  lemma MovesOn(s: System, r: nat, c: Call)
    requires PlacedOK(s) && (r in s.calls ==> s.calls[r].stage != Waiting && c.ticker == s.calls[r].ticker) && c.stage != Waiting
    ensures PlacedOK(s.(calls := s.calls[r := c]))
  {
    var next := s.(calls := s.calls[r := c]);
    forall w | w in s.workers ensures QueuedOK(next, w) && InFlightOK(next, w) {
      assert QueuedOK(s, w) && InFlightOK(s, w);
    }
    forall x | x in next.calls ensures WaitingOK(next, x) {
      if x != r { assert WaitingOK(s, x); }
    }
    forall x | x in s.dropped ensures DroppedOK(next, x) {
      assert DroppedOK(s, x);
    }
  }

  lemma SendKeepsPlaces(s: System, r: nat)
    requires PlacedOK(s) && HasCall(s, r, Cleared) && s.calls[r].ticker in s.registry && s.registry[s.calls[r].ticker] in s.workers
    ensures PlacedOK(Sent(s, r))
  {
    var next, w0 := Sent(s, r), s.registry[s.calls[r].ticker];
    if !s.workers[w0].open {
      SamePlacesKept(s, next);
    } else {
      assert r in s.dropped ==> DroppedOK(s, r);
      forall w | w in s.workers ensures QueuedOK(next, w) && InFlightOK(next, w) {
        SentQueues(s, r, w);
      }
      forall x | x in next.calls ensures WaitingOK(next, x) {
        SentWaiting(s, r, x);
      }
      forall x | x in s.dropped ensures DroppedOK(next, x) {
        assert DroppedOK(s, x);
      }
    }
  }

  lemma SentQueues(s: System, r: nat, w: nat)
    requires HasCall(s, r, Cleared) && s.calls[r].ticker in s.registry && s.registry[s.calls[r].ticker] in s.workers
    requires w in s.workers && QueuedOK(s, w) && InFlightOK(s, w) && r !in s.dropped && s.workers[s.registry[s.calls[r].ticker]].open
    ensures QueuedOK(Sent(s, r), w) && InFlightOK(Sent(s, r), w)
  {
    var q := s.workers[w].queue;
    assert forall i :: 0 <= i < |q| ==> Routed(s, q[i], w) && q[i] != r;
  }

  lemma SentWaiting(s: System, r: nat, x: nat)
    requires HasCall(s, r, Cleared) && s.calls[r].ticker in s.registry && s.registry[s.calls[r].ticker] in s.workers
    requires x in s.calls && WaitingOK(s, x) && s.workers[s.registry[s.calls[r].ticker]].open
    ensures WaitingOK(Sent(s, r), x)
  {
  }

  /** The first event of a queue leaves the queue; where it goes, the rest stays. */
  ghost predicate Popped(s: System, next: System, w0: nat) {
    && w0 in s.workers && s.workers[w0].phase == Idle && s.workers[w0].queue != []
    && next.registry == s.registry && w0 in next.workers && next.workers == s.workers[w0 := next.workers[w0]]
    && next.workers[w0].queue == s.workers[w0].queue[1..] && next.workers[w0].ticker == s.workers[w0].ticker
    && next.calls.Keys == s.calls.Keys
    && (forall x :: x in s.calls && x != s.workers[w0].queue[0] ==> next.calls[x] == s.calls[x])
  }

  lemma PoppedQueues(s: System, next: System, w0: nat, w: nat)
    requires PlacedOK(s) && Popped(s, next, w0) && w in s.workers
    requires forall x :: x in next.dropped ==> x in s.dropped || x == s.workers[w0].queue[0]
    ensures QueuedOK(next, w) && (w != w0 ==> InFlightOK(next, w))
    ensures s.workers[w0].queue[0] !in s.workers[w0].queue[1..]
  {
    var r := s.workers[w0].queue[0];
    assert QueuedOK(s, w0) && QueuedOK(s, w) && InFlightOK(s, w);
    assert Routed(s, r, w0);
    forall i | 0 <= i < |next.workers[w].queue| ensures next.workers[w].queue[i] != r {
      assert Routed(s, next.workers[w].queue[i], w);
    }
  }

  lemma PoppedWaiting(s: System, next: System, w0: nat, x: nat)
    requires PlacedOK(s) && Popped(s, next, w0) && x in s.calls && x != s.workers[w0].queue[0] && s.dropped <= next.dropped
    ensures WaitingOK(next, x)
  {
    assert WaitingOK(s, x);
    var q := s.workers[w0].queue;
    assert forall y :: y in q ==> y == q[0] || y in q[1..];
  }

  /** It is answered, dropped, or in the worker's hands. */
  lemma ReceiveKeepsPlaces(s: System, w0: nat)
    requires PlacedOK(s) && w0 in s.workers && s.workers[w0].phase == Idle && s.workers[w0].queue != [] && s.workers[w0].queue[0] in s.calls
    ensures PlacedOK(Received(s, w0))
  {
    var next, r := Received(s, w0), s.workers[w0].queue[0];
    assert QueuedOK(s, w0) && Routed(s, r, w0);
    assert Popped(s, next, w0);
    forall w | w in s.workers ensures QueuedOK(next, w) && InFlightOK(next, w) {
      PoppedQueues(s, next, w0, w);
    }
    hide QueuedOK, InFlightOK, Popped;
    forall x | x in next.calls ensures WaitingOK(next, x) {
      if x != r { PoppedWaiting(s, next, w0, x); }
    }
    forall x | x in next.dropped ensures DroppedOK(next, x) {
      assert x in s.dropped ==> DroppedOK(s, x);
    }
  }

  lemma FinishKeepsPlaces(s: System, w0: nat, failure: Option<string>)
    requires PlacedOK(s) && w0 in s.workers && s.workers[w0].phase != Idle && s.workers[w0].phase.request in s.calls
    ensures PlacedOK(Finished(s, w0, failure))
  {
    var r := s.workers[w0].phase.request;
    var next := Finished(s, w0, failure);
    assert InFlightOK(s, w0);
    forall w | w in s.workers ensures QueuedOK(next, w) && InFlightOK(next, w) {
      assert QueuedOK(s, w) && InFlightOK(s, w);
    }
    forall x | x in next.calls ensures WaitingOK(next, x) {
      assert WaitingOK(s, x);
    }
    forall x | x in s.dropped ensures DroppedOK(next, x) {
      assert DroppedOK(s, x);
    }
  }

  /** What else a step may touch has no say in where a call is. */
  ghost predicate SamePlaces(s: System, next: System) {
    && next.calls == s.calls && next.dropped == s.dropped
    && (forall t :: t in s.registry ==> t in next.registry && next.registry[t] == s.registry[t])
    && (forall w :: w in s.workers ==>
          && w in next.workers && next.workers[w].queue == s.workers[w].queue && next.workers[w].ticker == s.workers[w].ticker
          && (next.workers[w].phase == s.workers[w].phase
              || (s.workers[w].phase != Idle && next.workers[w].phase == Applied(s.workers[w].phase.request))))
    && (forall w :: w in next.workers && w !in s.workers ==> next.workers[w].queue == [] && next.workers[w].phase == Idle)
  }

  lemma SamePlacesKept(s: System, next: System)
    requires PlacedOK(s) && SamePlaces(s, next)
    ensures PlacedOK(next)
  {
    forall w | w in next.workers ensures QueuedOK(next, w) && InFlightOK(next, w) {
      assert w in s.workers ==> QueuedOK(s, w) && InFlightOK(s, w);
    }
    forall x | x in next.calls ensures WaitingOK(next, x) {
      assert WaitingOK(s, x);
    }
    forall x | x in s.dropped ensures DroppedOK(next, x) {
      assert DroppedOK(s, x);
    }
  }

  lemma RegisterSamePlaces(s: System, ticker: string, w: nat, served: string)
    ensures SamePlaces(s, Take(s, Register(ticker, w, served)))
  {
    hide NoReaders;
  }

  lemma WorkSamePlaces(s: System, step: Step)
    requires step.Apply? || step.Exit? || step.HaltElsewhere?
    ensures SamePlaces(s, Take(s, step))
  {
    hide NoReaders, HasCall, Received, Sent, Checked, Finished, At;
  }

  lemma ShutdownSamePlaces(s: System, step: Step)
    requires step.Lock? || step.Close? || step.Unlock?
    ensures SamePlaces(s, Take(s, step))
  {
    match step
    case Close(w) => CloseSamePlaces(s, w);
    case _ =>
      hide NoReaders;
  }

  lemma CloseSamePlaces(s: System, w: nat)
    ensures SamePlaces(s, Take(s, Close(w)))
  {
  }

  lemma OthersKeepPlaces(s: System, step: Step)
    requires LockOK(s) && PlacedOK(s)
    requires step.Register? || step.Apply? || step.Exit? || step.HaltElsewhere? || step.Lock? || step.Close? || step.Unlock?
    ensures PlacedOK(Take(s, step))
  {
    hide PlacedOK, LockOK, NoReaders, HasCall, Received, Sent, Checked, Finished, At, SamePlaces;
    if step.Register? {
      RegisterSamePlaces(s, step.ticker, step.worker, step.served);
    } else if step.Lock? || step.Close? || step.Unlock? {
      ShutdownSamePlaces(s, step);
    } else {
      WorkSamePlaces(s, step);
    }
    SamePlacesKept(s, Take(s, step));
  }

  lemma WorkerKeepsPlaces(s: System, step: Step)
    requires PlacedOK(s) && (step.Send? || step.Receive? || step.Finish?)
    ensures PlacedOK(Take(s, step))
  {
    hide PlacedOK, Received, Sent, Finished;
    var next := Take(s, step);
    match step
    case Send(r) =>
      if next != s { SendKeepsPlaces(s, r); }
    case Receive(w) =>
      if next != s { ReceiveKeepsPlaces(s, w); }
    case Finish(w, failure) =>
      if next != s { FinishKeepsPlaces(s, w, failure); }
  }

  lemma TakeKeepsPlaces(s: System, step: Step)
    requires LockOK(s) && PlacedOK(s)
    ensures PlacedOK(Take(s, step))
  {
    hide PlacedOK, LockOK, Take;
    if step.Enter? || step.Check? || step.Return? {
      StagesKeepPlaces(s, step);
    } else if step.Send? || step.Receive? || step.Finish? {
      WorkerKeepsPlaces(s, step);
    } else {
      OthersKeepPlaces(s, step);
    }
  }

  lemma StagesKeepPlaces(s: System, step: Step)
    requires PlacedOK(s) && (step.Enter? || step.Check? || step.Return?)
    ensures PlacedOK(Take(s, step))
  {
    hide PlacedOK;
    var next, r := Take(s, step), step.request;
    if next != s {
      MovesOn(s, r, next.calls[r]);
    }
  }

  // ----- every call is answered at most once -----

  ghost predicate AnswersOK(s: System) {
    && (forall i, j :: 0 <= i < j < |s.sent| ==> s.sent[i] != s.sent[j])
    && (forall i, j :: 0 <= i < j < |s.answers| ==> s.answers[i] != s.answers[j])
    && (forall r :: r in s.sent <==> r in s.calls && s.calls[r].stage in {Waiting, Answered, Served})
    && (forall r :: r in s.answers <==> r in s.calls && s.calls[r].stage in {Answered, Served})
  }

  lemma AnswerKept(s: System, next: System, r: nat)
    requires AnswersOK(s) && HasCall(s, r, Waiting) && next.sent == s.sent
    requires (next.calls == s.calls && next.answers == s.answers) || (next.calls == At(s, r, Answered).calls && next.answers == s.answers + [r])
    ensures AnswersOK(next)
  {
  }

  lemma SameAnswers(s: System, next: System)
    requires AnswersOK(s) && next.calls == s.calls && next.sent == s.sent && next.answers == s.answers
    ensures AnswersOK(next)
  {
  }

  lemma StageKeepsAnswers(s: System, r: nat, c: Call)
    requires AnswersOK(s) && c.stage !in {Waiting, Answered}
    requires if c.stage == Served then HasCall(s, r, Answered) else r in s.calls ==> s.calls[r].stage !in {Waiting, Answered, Served}
    ensures AnswersOK(s.(calls := s.calls[r := c]))
  {
  }

  lemma SendKeepsAnswers(s: System, r: nat)
    requires AnswersOK(s) && HasCall(s, r, Cleared)
    ensures AnswersOK(s.(calls := s.calls[r := s.calls[r].(stage := Waiting)], sent := s.sent + [r]))
  {
  }

  lemma CallerKeepsAnswers(s: System, step: Step)
    requires AnswersOK(s) && (step.Enter? || step.Check? || step.Send? || step.Return?)
    ensures AnswersOK(Take(s, step))
  {
    hide AnswersOK, Received, Finished, Halt, NoReaders;
    var next, r := Take(s, step), step.request;
    if next != s {
      if step.Send? {
        SendKeepsAnswers(s, r);
        SameAnswers(if next.panicked && next.calls == s.calls then s
                    else s.(calls := s.calls[r := s.calls[r].(stage := Waiting)], sent := s.sent + [r]), next);
      } else {
        StageKeepsAnswers(s, r, next.calls[r]);
      }
    }
  }

  lemma WorkerKeepsAnswers(s: System, step: Step)
    requires LockOK(s) && PlacedOK(s) && AnswersOK(s) && (step.Receive? || step.Finish?)
    ensures AnswersOK(Take(s, step))
  {
    hide LockOK, PlacedOK, AnswersOK, NoReaders, Sent, Checked;
    var next := Take(s, step);
    if next != s {
      var w := step.worker;
      var state := s.workers[w];
      var r := if step.Receive? then state.queue[0] else state.phase.request;
      WorkersCalls(s, w, r);
      AnswerKept(s, next, r);
    }
  }

  lemma TakeKeepsAnswers(s: System, step: Step)
    requires LockOK(s) && PlacedOK(s) && AnswersOK(s)
    ensures AnswersOK(Take(s, step))
  {
    hide LockOK, PlacedOK, AnswersOK, NoReaders, Received, Sent, Finished, Checked;
    if step.Enter? || step.Check? || step.Send? || step.Return? {
      CallerKeepsAnswers(s, step);
    } else if step.Receive? || step.Finish? {
      WorkerKeepsAnswers(s, step);
    } else {
      SameAnswers(s, Take(s, step));
    }
  }

  // ----- what takes effect -----

  /** No request takes effect twice, and one that did is past its queue. */
  ghost predicate OnceOK(s: System) {
    && (forall i, j :: 0 <= i < j < |s.effects| ==> s.effects[i].request != s.effects[j].request)
    && (forall i :: 0 <= i < |s.effects| ==>
          var r := s.effects[i].request;
          && r in s.calls && s.calls[r].command && s.calls[r].stage in {Waiting, Answered, Served}
          && forall w :: w in s.workers ==> r !in s.workers[w].queue && s.workers[w].phase != Admitted(r))
  }

  /** After the first halt a worker that failed applies nothing, and any other at most what it held. */
  ghost predicate LateOK(s: System) {
    && (forall w :: w in s.failed ==> s.cause.Some? && (w in s.workers ==> !s.workers[w].phase.Admitted?))
    && (forall i :: 0 <= i < |s.effects| && s.effects[i].late ==>
          var w := s.effects[i].worker;
          s.cause.Some? && w in s.workers && !s.workers[w].phase.Admitted?)
    && (forall i :: 0 <= i < |s.effects| ==> !s.effects[i].afterFailure)
    && (forall i, j :: 0 <= i < j < |s.effects| && s.effects[i].late && s.effects[j].late ==>
          s.effects[i].worker != s.effects[j].worker)
  }

  /** Nothing takes effect, and nothing is admitted once the engine has halted. */
  ghost predicate LateUntouched(s: System, next: System) {
    && next.effects == s.effects && (s.cause.Some? ==> next.cause.Some?)
    && (forall w :: w in next.failed && w !in s.failed ==> next.cause.Some? && w in next.workers && next.workers[w].phase == Idle)
    && (forall w :: w in s.workers ==> w in next.workers)
    && (forall w :: w in next.workers && next.workers[w].phase.Admitted? ==>
          s.cause.None? || (w in s.workers && s.workers[w].phase.Admitted?))
  }

  lemma LateUntouchedKept(s: System, next: System)
    requires LateOK(s) && LateUntouched(s, next)
    ensures LateOK(next)
  {
  }

  lemma ApplyKeepsLate(s: System, w: nat)
    requires LateOK(s)
    ensures LateOK(Take(s, Apply(w)))
  {
  }

  /** What receiving changes, whichever way it goes. */
  lemma ReceivedShape(s: System, w: nat)
    requires w in s.workers && s.workers[w].queue != [] && s.workers[w].queue[0] in s.calls && s.workers[w].phase == Idle
    ensures var next, q := Received(s, w), s.workers[w].queue;
            && next.effects == s.effects && next.failed == s.failed && next.cause == s.cause
            && w in next.workers && next.workers == s.workers[w := next.workers[w]] && next.workers[w].queue == q[1..]
            && (next.workers[w].phase == Idle || (next.workers[w].phase == Admitted(q[0]) && s.cause.None?))
            && (next.calls == s.calls || next.calls == s.calls[q[0] := s.calls[q[0]].(stage := Answered)])
  {
    hide LockOK, PlacedOK;
  }

  lemma ReceivedLate(s: System, w: nat)
    requires w in s.workers && s.workers[w].queue != [] && s.workers[w].queue[0] in s.calls && s.workers[w].phase == Idle
    ensures LateUntouched(s, Received(s, w))
  {
    hide Received;
    ReceivedShape(s, w);
  }

  lemma ReceivedOnce(s: System, w: nat)
    requires w in s.workers && s.workers[w].queue != [] && HasCall(s, s.workers[w].queue[0], Waiting) && s.workers[w].phase == Idle
    ensures OnceUntouched(s, Received(s, w))
  {
    hide Received;
    ReceivedShape(s, w);
    var q := s.workers[w].queue;
    assert forall r :: r in q[1..] ==> r in q;
  }

  lemma FinishLate(s: System, w: nat, failure: Option<string>)
    ensures LateUntouched(s, Take(s, Finish(w, failure)))
  {
  }

  lemma FinishOnce(s: System, w: nat, failure: Option<string>)
    requires w in s.workers && s.workers[w].phase != Idle && HasCall(s, s.workers[w].phase.request, Waiting)
    ensures OnceUntouched(s, Take(s, Finish(w, failure)))
  {
  }

  lemma StepUntouched(s: System, step: Step)
    requires !step.Apply?
    ensures LateUntouched(s, Take(s, step))
  {
    match step
    case Receive(w) =>
      hide LateUntouched, Received, OnceUntouched;
      if w in s.workers && s.workers[w].phase == Idle && s.workers[w].queue != [] && s.workers[w].queue[0] in s.calls {
        ReceivedLate(s, w);
      } else {
        SameUntouched(s);
      }
    case Finish(w, failure) => FinishLate(s, w, failure);
    case Send(r) => SendLate(s, r);
    case Close(w) => CloseLate(s, w);
    case Register(ticker, w, served) => RegisterLate(s, ticker, w, served);
    case _ =>
      hide NoReaders, Checked, HasCall;
  }

  lemma SendLate(s: System, r: nat)
    ensures LateUntouched(s, Take(s, Send(r)))
  {
  }

  lemma CloseLate(s: System, w: nat)
    ensures LateUntouched(s, Take(s, Close(w)))
  {
  }

  lemma RegisterLate(s: System, ticker: string, w: nat, served: string)
    ensures LateUntouched(s, Take(s, Register(ticker, w, served)))
  {
    hide NoReaders;
  }

  lemma SameUntouched(s: System)
    ensures LateUntouched(s, s) && OnceUntouched(s, s)
  {
  }

  lemma TakeKeepsLate(s: System, step: Step)
    requires LateOK(s)
    ensures LateOK(Take(s, step))
  {
    hide LateOK, LateUntouched, Take;
    if step.Apply? {
      ApplyKeepsLate(s, step.worker);
    } else {
      StepUntouched(s, step);
      LateUntouchedKept(s, Take(s, step));
    }
  }

  lemma CallerKeepsOnce(s: System, step: Step)
    requires OnceOK(s) && (step.Enter? || step.Check? || step.Send? || step.Return?)
    ensures OnceOK(Take(s, step))
  {
    hide NoReaders, Checked, Received, Finished;
  }

  /** No worker but its own holds a call. */
  lemma HeldOnce(s: System, w: nat, v: nat, r: nat)
    requires PlacedOK(s) && w in s.workers && v in s.workers && Holds(s.workers[w], r) && Holds(s.workers[v], r)
    ensures v == w && (r in s.workers[w].queue ==> s.workers[w].phase == Idle || s.workers[w].phase.request != r)
  {
    assert QueuedOK(s, w) && InFlightOK(s, w) && QueuedOK(s, v) && InFlightOK(s, v);
  }

  /** Nothing takes effect; what a worker holds it held before; what was waiting is waiting or answered. */
  ghost predicate OnceUntouched(s: System, next: System) {
    && next.effects == s.effects && next.workers.Keys == s.workers.Keys
    && (forall w :: w in s.workers ==>
          && (forall r :: r in next.workers[w].queue ==> r in s.workers[w].queue)
          && (next.workers[w].phase.Admitted? ==>
                next.workers[w].phase == s.workers[w].phase || next.workers[w].phase.request in s.workers[w].queue))
    && (forall r :: r in s.calls && s.calls[r].stage in {Waiting, Answered, Served} ==>
          r in next.calls && next.calls[r].command == s.calls[r].command && next.calls[r].stage in {Waiting, Answered, Served})
  }

  lemma OnceUntouchedKept(s: System, next: System)
    requires OnceOK(s) && OnceUntouched(s, next)
    ensures OnceOK(next)
  {
    forall i | 0 <= i < |next.effects|
      ensures var r := next.effects[i].request;
              && r in next.calls && next.calls[r].command && next.calls[r].stage in {Waiting, Answered, Served}
              && forall w :: w in next.workers ==> r !in next.workers[w].queue && next.workers[w].phase != Admitted(r)
    {
      var r := s.effects[i].request;
      forall w | w in next.workers ensures r !in next.workers[w].queue && next.workers[w].phase != Admitted(r) {
        assert w in s.workers && r !in s.workers[w].queue && s.workers[w].phase != Admitted(r);
      }
    }
  }

  lemma WorkerOnceUntouched(s: System, step: Step)
    requires LockOK(s) && PlacedOK(s) && (step.Receive? || step.Finish?)
    ensures OnceUntouched(s, Take(s, step))
  {
    hide LockOK, PlacedOK, NoReaders, Checked, Sent, Received, OnceUntouched, LateUntouched;
    SameUntouched(s);
    if Take(s, step) != s {
      var state := s.workers[step.worker];
      WorkersCalls(s, step.worker, if step.Receive? then state.queue[0] else state.phase.request);
      match step
      case Receive(w) => ReceivedOnce(s, w);
      case Finish(w, failure) => FinishOnce(s, w, failure);
    }
  }

  lemma ApplyKeepsOnce(s: System, w0: nat)
    requires LockOK(s) && PlacedOK(s) && OnceOK(s)
    ensures OnceOK(Take(s, Apply(w0)))
  {
    hide LockOK, PlacedOK;
    var next := Take(s, Apply(w0));
    if w0 in s.workers && s.workers[w0].phase.Admitted? {
      var r := s.workers[w0].phase.request;
      WorkersCalls(s, w0, r);
      assert InFlightOK(s, w0) by { Inside(s, w0); }
      forall w | w in s.workers ensures r !in s.workers[w].queue && next.workers[w].phase != Admitted(r) {
        if Holds(s.workers[w], r) { HeldOnce(s, w0, w, r); }
      }
    }
  }

  lemma WorkerKeepsOnce(s: System, step: Step)
    requires LockOK(s) && PlacedOK(s) && OnceOK(s) && (step.Receive? || step.Apply? || step.Finish?)
    ensures OnceOK(Take(s, step))
  {
    hide LockOK, PlacedOK, OnceOK, OnceUntouched, Take;
    if step.Apply? {
      ApplyKeepsOnce(s, step.worker);
    } else {
      WorkerOnceUntouched(s, step);
      OnceUntouchedKept(s, Take(s, step));
    }
  }

  lemma Inside(s: System, w: nat)
    requires PlacedOK(s) && w in s.workers
    ensures QueuedOK(s, w) && InFlightOK(s, w)
  {
  }

  lemma TakeKeepsOnce(s: System, step: Step)
    requires LockOK(s) && PlacedOK(s) && OnceOK(s)
    ensures OnceOK(Take(s, step))
  {
    if step.Enter? || step.Check? || step.Send? || step.Return? {
      hide LockOK, PlacedOK, OnceOK, Take;
      CallerKeepsOnce(s, step);
    } else if step.Receive? || step.Apply? || step.Finish? {
      hide LockOK, PlacedOK, OnceOK, Take;
      WorkerKeepsOnce(s, step);
    } else {
      hide LockOK, PlacedOK, NoReaders, Received, Sent, Finished, Checked;
    }
  }

  // ----- every interleaving -----

  ghost predicate Inv(s: System) {
    LockOK(s) && PlacedOK(s) && AnswersOK(s) && OnceOK(s) && LateOK(s)
  }

  /** Every interleaving of callers, workers, registrations, halts and shutdowns keeps the invariant. */
  lemma {:induction false} EveryRunKeeps(steps: seq<Step>)
    ensures Inv(Perform(steps))
  {
    hide LockOK, PlacedOK, AnswersOK, OnceOK, LateOK, Take;
    if steps == [] {
      StartKeeps();
    } else {
      var s, step := Perform(steps[..|steps| - 1]), steps[|steps| - 1];
      EveryRunKeeps(steps[..|steps| - 1]);
      TakeKeepsLock(s, step);
      TakeKeepsPlaces(s, step);
      TakeKeepsAnswers(s, step);
      TakeKeepsOnce(s, step);
      TakeKeepsLate(s, step);
    }
  }

  lemma StartKeeps()
    ensures Inv(START)
  {
  }

  /**
   * Safe shutdown: nothing is ever sent to or closed on a closed queue; once closed, every queue is
   * empty, no worker holds anything, and every event that was ever sent has been answered exactly once.
   */
  lemma SafeShutdown(steps: seq<Step>)
    ensures var s := Perform(steps);
            && !s.panicked
            && (forall i, j :: 0 <= i < j < |s.sent| ==> s.sent[i] != s.sent[j])
            && (forall i, j :: 0 <= i < j < |s.answers| ==> s.answers[i] != s.answers[j])
            && (s.closed ==>
                  && (forall w :: w in s.workers ==> s.workers[w].queue == [] && s.workers[w].phase == Idle)
                  && (forall r :: r in s.sent <==> r in s.answers))
  {
    EveryRunKeeps(steps);
    var s := Perform(steps);
    hide LateOK, OnceOK, Perform, QueuedOK, InFlightOK, WaitingOK;
    if s.closed {
      forall w | w in s.workers ensures s.workers[w].queue == [] && s.workers[w].phase == Idle {
        NothingHeld(s, w);
      }
    }
  }

  lemma NothingHeld(s: System, w: nat)
    requires LockOK(s) && PlacedOK(s) && s.closed && w in s.workers
    ensures s.workers[w].queue == [] && s.workers[w].phase == Idle
  {
    var q := s.workers[w].queue;
    assert QueuedOK(s, w) && InFlightOK(s, w);
    assert q != [] ==> Routed(s, q[0], w);
  }

  /** Nothing is sent, answered or applied once the router is closed. */
  lemma ClosedForGood(steps: seq<Step>, step: Step)
    requires Perform(steps).closed
    ensures var s, next := Perform(steps), Take(Perform(steps), step);
            next.closed && next.sent == s.sent && next.answers == s.answers && next.effects == s.effects && next.registry == s.registry
  {
    SafeShutdown(steps);
    EveryRunKeeps(steps);
    var s := Perform(steps);
    hide PlacedOK, AnswersOK, OnceOK, LateOK, NoReaders, Perform;
  }

  /** A snapshot read on its way to a worker that serves another ticker. */
  predicate Misrouted(s: System, r: nat)
    requires r in s.calls && s.calls[r].ticker in s.registry && s.registry[s.calls[r].ticker] in s.workers
  {
    !s.calls[r].command && s.workers[s.registry[s.calls[r].ticker]].ticker != s.calls[r].ticker
  }

  /** What was answered was not misrouted. */
  ghost predicate RepliesOK(s: System) {
    forall r :: r in s.calls && s.calls[r].stage in {Answered, Served} ==>
      s.calls[r].ticker in s.registry && s.registry[s.calls[r].ticker] in s.workers && !Misrouted(s, r)
  }

  /** Registrations stay, workers keep their tickers, and nothing is answered but what is given leave. */
  ghost predicate RepliesUntouched(s: System, next: System, replied: set<nat>) {
    && (forall t :: t in s.registry ==> t in next.registry && next.registry[t] == s.registry[t])
    && (forall w :: w in s.workers ==> w in next.workers && next.workers[w].ticker == s.workers[w].ticker)
    && (forall r :: r in next.calls && next.calls[r].stage in {Answered, Served} && r !in replied ==>
          HasCall(s, r, Answered) || HasCall(s, r, Served))
    && (forall r :: r in s.calls ==>
          r in next.calls && next.calls[r].ticker == s.calls[r].ticker && next.calls[r].command == s.calls[r].command)
  }

  lemma RepliesUntouchedKept(s: System, next: System, replied: set<nat>)
    requires RepliesOK(s) && RepliesUntouched(s, next, replied)
    requires forall r :: r in replied ==>
               r in s.calls && s.calls[r].ticker in s.registry && s.registry[s.calls[r].ticker] in s.workers && !Misrouted(s, r)
    ensures RepliesOK(next)
  {
  }

  lemma EnterReplies(s: System, r: nat, ticker: string, command: bool)
    ensures RepliesUntouched(s, Take(s, Enter(r, ticker, command)), {})
  {
  }

  lemma CheckReplies(s: System, r: nat)
    ensures RepliesUntouched(s, Take(s, Check(r)), {})
  {
  }

  lemma ReturnReplies(s: System, r: nat)
    ensures RepliesUntouched(s, Take(s, Return(r)), {})
  {
  }

  lemma SendReplies(s: System, r: nat)
    ensures RepliesUntouched(s, Take(s, Send(r)), {})
  {
  }

  lemma CallerReplies(s: System, step: Step)
    requires step.Enter? || step.Check? || step.Send? || step.Return?
    ensures RepliesUntouched(s, Take(s, step), {})
  {
    hide RepliesUntouched, Take;
    match step
    case Enter(r, ticker, command) => EnterReplies(s, r, ticker, command);
    case Check(r) => CheckReplies(s, r);
    case Send(r) => SendReplies(s, r);
    case Return(r) => ReturnReplies(s, r);
  }

  lemma OtherReplies(s: System, step: Step)
    requires step.Register? || step.Lock? || step.Close? || step.Unlock? || step.Apply? || step.Exit? || step.HaltElsewhere?
    ensures RepliesUntouched(s, Take(s, step), {})
  {
    hide Take, SamePlaces, RepliesUntouched;
    if step.Register? {
      RegisterSamePlaces(s, step.ticker, step.worker, step.served);
    } else if step.Lock? || step.Close? || step.Unlock? {
      ShutdownSamePlaces(s, step);
    } else {
      WorkSamePlaces(s, step);
    }
    SamePlacesReplies(s, Take(s, step));
  }

  lemma SamePlacesReplies(s: System, next: System)
    requires SamePlaces(s, next)
    ensures RepliesUntouched(s, next, {})
  {
  }

  lemma ReceivedReplies(s: System, w: nat)
    requires w in s.workers && s.workers[w].phase == Idle && s.workers[w].queue != [] && s.workers[w].queue[0] in s.calls
    ensures var r := s.workers[w].queue[0];
            RepliesUntouched(s, Received(s, w), if s.calls[r].command || s.workers[w].ticker == s.calls[r].ticker then {r} else {})
  {
    hide NoReaders, Checked, Sent;
  }

  lemma FinishedReplies(s: System, w: nat, failure: Option<string>)
    requires w in s.workers && s.workers[w].phase != Idle && s.workers[w].phase.request in s.calls
    ensures RepliesUntouched(s, Take(s, Finish(w, failure)), {s.workers[w].phase.request})
  {
    hide NoReaders, Checked, Sent, Received;
  }

  lemma TakeKeepsReplies(s: System, step: Step)
    requires LockOK(s) && PlacedOK(s) && RepliesOK(s)
    ensures RepliesOK(Take(s, step))
  {
    hide LockOK, RepliesOK, RepliesUntouched, NoReaders, Checked, Received, Sent, QueuedOK, InFlightOK;
    var next := Take(s, step);
    if next != s {
      match step
      case Receive(w) =>
        var r := s.workers[w].queue[0];
        ReceivedReplies(s, w);
        HeldIsRouted(s, w, r);
        RepliesUntouchedKept(s, next, if s.calls[r].command || s.workers[w].ticker == s.calls[r].ticker then {r} else {});
      case Finish(w, failure) =>
        FinishedReplies(s, w, failure);
        HeldIsRouted(s, w, s.workers[w].phase.request);
        RepliesUntouchedKept(s, next, {s.workers[w].phase.request});
      case _ =>
        if step.Enter? || step.Check? || step.Send? || step.Return? {
          CallerReplies(s, step);
        } else {
          OtherReplies(s, step);
        }
        RepliesUntouchedKept(s, next, {});
    }
  }

  lemma HeldIsRouted(s: System, w: nat, r: nat)
    requires PlacedOK(s) && w in s.workers && Holds(s.workers[w], r)
    ensures r in s.calls && s.calls[r].ticker in s.registry && s.registry[s.calls[r].ticker] == w
    ensures s.workers[w].phase != Idle && s.workers[w].phase.request == r ==> s.calls[r].command
  {
    assert QueuedOK(s, w) && InFlightOK(s, w);
  }

  lemma {:induction false} EveryRunReplies(steps: seq<Step>)
    ensures RepliesOK(Perform(steps))
  {
    hide LockOK, PlacedOK, AnswersOK, OnceOK, LateOK, RepliesOK, Take;
    if steps == [] {
      NoReplies();
    } else {
      EveryRunKeeps(steps[..|steps| - 1]);
      EveryRunReplies(steps[..|steps| - 1]);
      TakeKeepsReplies(Perform(steps[..|steps| - 1]), steps[|steps| - 1]);
    }
  }

  lemma NoReplies()
    ensures RepliesOK(START)
  {
  }

  /**
   * Exactly once: an event that was sent and not misrouted is either answered or still held by its one
   * worker. A misrouted one is never answered in any run: it is held, and then it is dropped.
   */
  lemma AnsweredOrHeld(steps: seq<Step>, r: nat)
    ensures var s := Perform(steps);
            r in s.sent ==>
              r in s.calls && s.calls[r].ticker in s.registry && s.registry[s.calls[r].ticker] in s.workers &&
              var state := s.workers[s.registry[s.calls[r].ticker]];
              && (r in s.answers ==> !Holds(state, r) && r !in s.dropped && !Misrouted(s, r))
              && (r !in s.answers ==> (Holds(state, r) <==> r !in s.dropped))
              && (r in s.dropped ==> Misrouted(s, r))
  {
    EveryRunKeeps(steps);
    EveryRunReplies(steps);
    var s := Perform(steps);
    if r in s.sent {
      var w := s.registry[s.calls[r].ticker];
      assert QueuedOK(s, w) && InFlightOK(s, w) && WaitingOK(s, r);
      assert r in s.dropped ==> DroppedOK(s, r);
    }
  }

  function Misregistered(queue: seq<nat>): map<nat, WorkerState> {
    map[0 := WorkerState("B", queue, true, Idle, false)]
  }

  /** One snapshot read through ticker A, sent to a worker that serves B. */
  function Snapshotting(stage: Stage, queue: seq<nat>): System {
    START.(registry := map["A" := 0], workers := Misregistered(queue), calls := map[7 := Call("A", false, stage)],
           sent := if stage == Waiting then [7] else [])
  }

  lemma SnapshotEnters()
    ensures Take(Take(START, Register("A", 0, "B")), Enter(7, "A", false)) == Snapshotting(Entered, [])
    ensures Take(Snapshotting(Entered, []), Check(7)) == Snapshotting(Cleared, [])
  {
    assert NoReaders(START);
    assert Take(START, Register("A", 0, "B")) == START.(registry := map["A" := 0], workers := Misregistered([]));
    hide NoReaders;
  }

  lemma SnapshotSends()
    ensures Take(Snapshotting(Cleared, []), Send(7)) == Snapshotting(Waiting, [7])
  {
    var s := Snapshotting(Cleared, []);
    assert s.workers[0].queue + [7] == [7] && s.sent + [7] == [7];
    assert s.calls[7 := s.calls[7].(stage := Waiting)] == Snapshotting(Waiting, [7]).calls;
    assert s.workers[0 := s.workers[0].(queue := [7])] == Misregistered([7]);
    assert Take(s, Send(7)) == Sent(s, 7);
  }

  lemma SnapshotDrops()
    ensures Take(Snapshotting(Waiting, [7]), Receive(0)) == Snapshotting(Waiting, []).(dropped := {7})
  {
    var s := Snapshotting(Waiting, [7]);
    assert s.workers[0].queue[1..] == [] && s.dropped + {7} == {7};
    assert s.workers[0 := s.workers[0].(queue := [], phase := Idle)] == Misregistered([]);
    assert Receiving(s, s.workers[0], s.calls[7]) == Drop;
    assert Take(s, Receive(0)) == Received(s, 0);
  }

  /** Such a call exists: a worker registered under another ticker than its own drops a snapshot read. */
  lemma SnapshotIsDropped()
    ensures var s := Perform([Register("A", 0, "B"), Enter(7, "A", false), Check(7), Send(7), Receive(0)]);
            7 in s.sent && 7 in s.dropped && 7 !in s.answers
  {
    hide Take, Perform;
    SnapshotEnters();
    SnapshotSends();
    SnapshotDrops();
    var a, b, c, d, e := Register("A", 0, "B"), Enter(7, "A", false), Check(7), Send(7), Receive(0);
    PerformNothing();
    assert [] + [a] == [a] && [a] + [b] == [a, b] && [a, b] + [c] == [a, b, c];
    assert [a, b, c] + [d] == [a, b, c, d] && [a, b, c, d] + [e] == [a, b, c, d, e];
    PerformMore([], a);
    PerformMore([a], b);
    PerformMore([a, b], c);
    PerformMore([a, b, c], d);
    PerformMore([a, b, c, d], e);
  }

  lemma PerformNothing()
    ensures Perform([]) == START
  {
  }

  lemma PerformMore(steps: seq<Step>, step: Step)
    ensures Perform(steps + [step]) == Take(Perform(steps), step)
  {
    assert (steps + [step])[..|steps|] == steps;
  }

  lemma StepKeepsCause(s: System, step: Step)
    requires s.cause.Some?
    ensures Take(s, step).cause == s.cause
  {
    hide NoReaders, Checked, HasCall;
  }

  /** The first halt cause never changes, whatever happens after it. */
  lemma {:induction false} CauseSticks(steps: seq<Step>, more: seq<Step>)
    requires Perform(steps).cause.Some?
    ensures Perform(steps + more).cause == Perform(steps).cause
    decreases |more|
  {
    if more == [] {
      assert steps + more == steps;
    } else {
      var n := |more| - 1;
      CauseSticks(steps, more[..n]);
      assert steps + more == steps + more[..n] + [more[n]];
      PerformMore(steps + more[..n], more[n]);
      hide Take, Perform;
      StepKeepsCause(Perform(steps + more[..n]), more[n]);
    }
  }

  /**
   * After the first halt: a worker that failed applies nothing more, every other worker applies at most
   * the one command it already held; and no command ever takes effect twice.
   */
  lemma LateWork(steps: seq<Step>)
    ensures var e := Perform(steps).effects;
            && (forall i :: 0 <= i < |e| ==> !e[i].afterFailure)
            && (forall i, j :: 0 <= i < j < |e| && e[i].late && e[j].late ==> e[i].worker != e[j].worker)
            && (forall i, j :: 0 <= i < j < |e| ==> e[i].request != e[j].request)
  {
    EveryRunKeeps(steps);
  }

  // ----- calls go through -----

  /** A caller's checks pass exactly when the router is open, knows the ticker and, for a command, is not halted. */
  lemma ClearedIff(s: System, r: nat)
    requires HasCall(s, r, Entered)
    ensures HasCall(Take(s, Check(r)), r, Cleared) <==>
              && !s.closed && s.calls[r].ticker != "" && s.calls[r].ticker in s.registry
              && (!s.calls[r].command || s.cause == None)
    ensures HasCall(Take(s, Check(r)), r, Cleared) || HasCall(Take(s, Check(r)), r, Refused)
  {
  }

  /** A ticker is registered exactly when it is named and new and the router is open and not in use. */
  lemma RegisteredIff(s: System, ticker: string, w: nat, served: string)
    ensures var next := Take(s, Register(ticker, w, served));
            && (ticker != "" && ticker !in s.registry && !s.closed && s.writer.None? && NoReaders(s) ==>
                  && next.registry == s.registry[ticker := w] && w in next.workers
                  && (w !in s.workers ==> next.workers[w] == WorkerState(served, [], true, Idle, false)))
            && (ticker == "" || ticker in s.registry || s.closed ==> next == s)
  {
    hide NoReaders;
  }

  /** A caller inside keeps shutdown and registration out. */
  lemma ReaderExcludes(s: System, r: nat, ticker: string, w: nat, served: string)
    requires r in s.calls && s.calls[r].stage in {Entered, Cleared, Waiting, Answered}
    ensures Take(s, Lock) == s && Take(s, Register(ticker, w, served)) == s
  {
    assert Reading(s.calls[r]);
  }

  /** A shutdown at work keeps callers out. */
  lemma WriterExcludes(s: System, r: nat, ticker: string, command: bool)
    requires s.writer.Some?
    ensures Take(s, Enter(r, ticker, command)) == s && Take(s, Lock) == s
  {
  }

  /** A command that takes effect is recorded with whether the engine had halted and its worker had failed. */
  lemma AppliedIs(s: System, w: nat)
    requires w in s.workers && s.workers[w].phase.Admitted?
    ensures Take(s, Apply(w)).effects == s.effects + [Effect(w, s.workers[w].phase.request, s.cause != None, w in s.failed)]
  {
  }

  /** A worker is done exactly when its queue is closed and empty and its hands are. */
  lemma DoneIff(s: System, w: nat)
    requires w in s.workers && !s.workers[w].done
    ensures Take(s, Exit(w)).workers[w].done <==> !s.workers[w].open && s.workers[w].queue == [] && s.workers[w].phase == Idle
  {
  }

  /** A shutdown that takes the lock closes the router and has every registered queue to close. */
  lemma LockCloses(s: System)
    requires s.writer.None? && NoReaders(s)
    ensures var next := Take(s, Lock);
            next.closed && next.writer == Some(if s.closed then {} else s.registry.Values)
  {
  }

  /** What the worker does with the event it takes: a command for its own ticker, unless halted, goes to work. */
  lemma ReceivedIs(s: System, w: nat)
    requires w in s.workers && s.workers[w].phase == Idle && s.workers[w].queue != [] && s.workers[w].queue[0] in s.calls
    ensures var r, state := s.workers[w].queue[0], s.workers[w];
            var c, next := s.calls[r], Take(s, Receive(w));
            && next.workers[w].queue == state.queue[1..]
            && (next.workers[w].phase == Admitted(r) <==> c.command && c.ticker == state.ticker && s.cause == None)
            && (r in next.dropped && r !in s.dropped ==> !c.command && c.ticker != state.ticker)
            && (HasCall(next, r, Answered) <== (c.command && (s.cause.Some? || c.ticker != state.ticker)) || (!c.command && c.ticker == state.ticker))
  {
    hide NoReaders, Sent, Finished;
  }

  /**
   * A command for a registered ticker whose worker is idle goes all the way through: it takes effect once,
   * by its own worker, and its caller is served.
   */
  lemma CommandGoesThrough(s: System, r: nat, w: nat)
    requires LockOK(s) && HasCall(s, r, Entered) && s.calls[r].command && !s.closed && s.cause == None
    requires s.calls[r].ticker != "" && Routed(s, r, w) && w in s.workers
    requires s.workers[w].ticker == s.calls[r].ticker && s.workers[w].queue == [] && s.workers[w].phase == Idle
    ensures var sent := Take(Take(s, Check(r)), Send(r));
            var applied := Take(Take(sent, Receive(w)), Apply(w));
            var served := Take(Take(applied, Finish(w, None)), Return(r));
            && sent.sent == s.sent + [r]
            && applied.effects == s.effects + [Effect(w, r, false, w in s.failed)]
            && served.answers == s.answers + [r] && HasCall(served, r, Served) && served.workers[w] == s.workers[w] && served.cause == None
  {
    hide NoReaders, LockOK;
    OpenWorker(s, w);
    var cleared := Take(s, Check(r));
    assert cleared == s.(calls := s.calls[r := s.calls[r].(stage := Cleared)]);
    var sent := Take(cleared, Send(r));
    assert sent == Sent(cleared, r);
    assert sent.workers[w].queue == [r] && HasCall(sent, r, Waiting);
    var held := Take(sent, Receive(w));
    assert held == Received(sent, w);
    assert held.workers[w].phase == Admitted(r) && held.workers[w].queue == [];
    var applied := Take(held, Apply(w));
    assert applied.workers[w].phase == Applied(r);
    var done := Take(applied, Finish(w, None));
    assert done == Finished(applied, w, None);
  }

  lemma OpenWorker(s: System, w: nat)
    requires LockOK(s) && !s.closed && w in s.workers
    ensures s.workers[w].open
  {
  }
}
