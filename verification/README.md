# Order book, matcher and durable command protocol: a Dafny model

This project models the engine of a central limit order book and proves what its operations and whole
runs of it keep. `dafny verify dfyconfig.toml` checks the whole project.

The engine has two layers and one piece of arithmetic, and so has the model.

**The book and the matcher.** One mutable object holds five views of the same orders: a price map, a
binary heap with back-pointers, a first-in first-out queue per price, a running total per price, and an
index from order identity to list node. Modules `Levels`, `Heaps`, `Sides`, `OrderBooks` and `Matching`
are classes that change these in place, as the source does; `OrderBook.Valid` says that the five views
agree. Every operation is proved to be one step on the flat book of module `FlatBook`, in which a side is
simply the sequence of its orders, best price first and first-in first-out within a price. The bid and ask
code of the source are mirror images, so it is written once with the side as a parameter. `heap.Push` and
`heap.Remove` are written out with their sift-up and sift-down, and so is the upkeep of the back-pointers.
`MatchingLaws`, `BookLaws` and `Snapshots` prove what the flat steps mean.

**The durable protocol.** `Execution` says what one journalled command does. `Lifecycle`, `Batches`,
`Conservation`, `Priority`, `Runs` and `RowIdentity` prove properties of whole runs of commands, and `Guards`
says exactly when a command applies.
`Provenance` and `Announcements` say where every order, execution and event comes from and what each event means.
`JournalStores` and `Stores` model the journal and the two batch stores; a commit may be lost, or land while
it reports an error. `Protocol` is the step system of one worker (append, apply, save executions, save events,
acknowledge, halt, restart) with a fault chosen at every boundary, among workers of other tickers that write to
the same tables. `Recovery` proves crash recovery and fail-closed acknowledgement over all its runs, `Rebuild` that the
stored event rows alone give the book, and `Requests` what becomes of a request. `Worker`
is the imperative worker, proved to take exactly the steps of `Protocol`. `Dispatch` is a small-step model of
the router's lock, the worker queues, halting and shutdown, over every interleaving.

**Fixed-point arithmetic.** `Decimal` proves decimal parsing and printing against a grammar of decimals;
`MatchingLaws` bounds the rounding of quotes.

## Assumptions

- Identities are injective. An order, execution or event identity is a digest in the source; here it is the
  tuple that is hashed.
- Creates are fresh (`Runs.FreshIDs`): no two create commands hash the same tuple. `AddOrder` overwrites
  the index entry of an identity without looking, so the model requires the identity to be absent;
  `FlatBook.RestValidIff` shows that the book stays valid exactly then.
- Recorded times tell takers apart (`RowIdentity.DistinctTakers`): two commands that send the same order into
  matching have different recorded times, because the time is part of an execution's identity. It is assumed
  where rows are counted or compared and nowhere else.
- A market's configuration version is not negative where the event batch of a command is said to pass.

## What turned out not to hold without a condition

- Parsing undoes printing for every 64-bit value except the smallest at a positive scale: its negation wraps,
  and it prints with two signs (`Decimal.RoundTrip`, an if-and-only-if).
- A command can be journalled and matched and still be refused at its event batch: the journal accepts a
  command id or ticker of white space only, event validation does not, and event numbers must fit 32 bits.
  `Guards.EventsPassIff` gives the exact condition and `Guards.BlankIDIsRefused` an input.
- An execution row is not the log itself, and can be refused: a zero quote is recomputed with the default scales
  before it is stored, and may overflow there. `Stores.StoredIff` says when a row is refused and when it is the
  log; `Guards.StorableMarketIff` says which markets are safe (the price and quantity scales together exceed the
  quote scale by at most 26 digits); `Guards.RecomputedQuoteIsRefused` is an input in a market that is not.
  The recovery theorems speak of the rows the store makes of the logs (`Recovery.TablesExact`).
- Either refusal halts the worker, and every later replay stops at the same command
  (`Recovery.RestartRecovers`, `Runs.RunOkIff`). `Guards.AppliesIff` puts the conditions together: exactly when
  a command applies.
- Every event that is sent is answered exactly once, except a snapshot read sent through a ticker under which
  a worker for another ticker was registered: it is never answered (`Dispatch.AnsweredOrHeld`), and
  `Dispatch.SnapshotIsDropped` is such a run.

## Model

| member | source | states |
|---|---|---|
| `Heaps.PriceHeap.Swap` | internal/util/max_heap.go:9-12 | exchanges two levels and leaves every back-pointer equal to its slot |
| `Heaps.PriceHeap.Push` | internal/util/max_heap.go:14-18 | appends a level with its slot as back-pointer |
| `Heaps.PriceHeap.Pop` | internal/util/min_heap.go:21-28 | takes the last level off and clears its back-pointer |
| `Heaps.PriceHeap.HeapPush` | internal/engine/order.go:94-115 | the heap keeps its order and its back-pointers and gains exactly the new level |
| `Heaps.PriceHeap.HeapRemove` | internal/engine/order.go:284-292 | removal at any position keeps heap order and back-pointers and loses exactly the level of that slot |
| `Heaps.RootIsBest` | internal/util/min_heap.go:31-36 | no level of a heap is better than the one at its root, so Peek is the best price |
| `Levels.Queue.Push` | internal/util/queue.go:15-17 | a fresh node goes to the back of the queue |
| `Levels.Queue.Pop` | internal/util/queue.go:19-26 | the front value leaves the queue; an empty queue yields nothing |
| `Levels.Queue.Remove` | internal/util/queue.go:28-33 | exactly the node of the handle leaves, the rest keep their order; a foreign node changes nothing |
| `Levels.PriceLevel.Unlink` | internal/engine/order.go:155-181 | the queue loses one order and the wrapped total stays the total of the rest |
| `Sides.BookSide.Add` | internal/engine/order.go:94-115 | on one side the map, heap, queues, totals and the flat view stay in agreement and the order goes behind its price |
| `Sides.BookSide.BestLevel` | internal/engine/match.go:44-49 | the heap's top is the level of the first order of the flat view, and that order is the front of its queue |
| `OrderBooks.OrderBook.AddOrder` | internal/engine/order.go:94-115 | keeps all five views in agreement; the book becomes the old one with the order behind its price |
| `OrderBooks.OrderBook.RemoveOrder` | internal/engine/order.go:131-153 | returns exactly the resting order of the identity and takes only that order out; an unknown identity changes nothing |
| `OrderBooks.OrderBook.RemoveElement` | internal/engine/order.go:155-181 | the order leaves queue, total, index, and map and heap if its level ran empty; the views still agree |
| `OrderBooks.OrderBook.EditOrderAt` | internal/engine/order.go:187-245 | an edit takes place exactly when an order of the identity rests and its price, or an amount that is given, differs; the order then has the requested price, the requested or its old amount, and the recorded time; a smaller amount keeps its place, a larger one sends it to the back, a new price takes it out for rematching |
| `FlatBook.EditIs` | internal/engine/order.go:203-228 | the same of the flat step: when an edit takes place, and what the order has after it |
| `OrderBooks.OrderBook.Consume` | internal/engine/match.go:69-85 | one execution's effect on the five views is: some lots leave the first order of the side, and the order leaves when none remain |
| `OrderBooks.OrderBook.Locate` | internal/engine/order.go:117-129 | what the index holds for an identity is the node in the queue of that order's own side and price, and it is the order of the flat view |
| `FlatBook.InsertSplits` | internal/engine/order.go:113-114 | a new order stands behind all orders at its price or better and before all worse ones |
| `FlatBook.RestValidIff` | internal/engine/order.go:94-115 | resting an order keeps the book valid exactly when its identity is on neither side and not empty and its amount is positive: what AddOrder asks |
| `FlatBook.EditValidIff` | internal/engine/order.go:187-245 | an amendment keeps the book valid exactly when the order leaves for rematching or keeps a positive amount: what EditOrderAt asks |
| `FlatBook.RemoveAt` | internal/engine/order.go:155-181 | removal takes out one position and moves nothing else |
| `FlatBook.AtPriceInsert` | internal/engine/order.go:94-115 | seen by price, insertion appends to one queue and leaves every other queue alone |
| `Matching.Match` | internal/engine/match.go:34-139 | the in-place loop computes the greedy recursion on the flat view: residual, logs, maker transitions, final book and error exit; the five views agree at every exit |
| `Matching.FillBest` | internal/engine/match.go:59-85 | one round trades with the first opposite order at its price, or changes nothing when the quote cannot be expressed |
| `MatchingLaws.EndsOkIffStops` | internal/engine/match.go:44-66 | a match ends without error exactly when nothing more can trade; an error is a quote that cannot be expressed |
| `MatchingLaws.Shape` | internal/engine/match.go:44-86 | makers are hit once each, in book order, as a prefix of the side; all but the last are filled, and a last one with lots left means the taker is filled |
| `MatchingLaws.TradesWhatCrosses` | internal/engine/match.go:141-157 | an error-free match trades the smaller of the taker's amount and what it may trade with: the whole opposite side for a market order, everything at its own price or better for a limit order |
| `MatchingLaws.Conserves` | internal/engine/match.go:59-77 | the taker's fill, the logged amounts, the maker fills and the drop of the opposite side are equal |
| `MatchingLaws.MakersInOrder` | internal/engine/match.go:159-179 | execution i records the i-th opposite order and the taker, each with identity, user and side, the maker's price, the market's version, and the quote rounded down to the nearest atom |
| `MatchingLaws.PricesWorsen` | internal/engine/match.go:148-157 | prices never improve along the log; none is above a limit bid's or below a limit ask's own price |
| `MatchingLaws.LogsNumbered` | internal/matchlog/log.go:34-38 | the executions of one match are numbered consecutively and carry ticker, taker and time |
| `MatchingLaws.StaysWellFormed` | internal/engine/match.go:79-84 | matching leaves a sorted side of distinct positive orders with no new identity |
| `MatchingLaws.QuoteFailsIff` | internal/numeric/numeric.go:177-189 | a quote fails exactly when an input is negative or the exact value reaches 2^63 quote atoms |
| `MatchingLaws.RoundingBound` | internal/numeric/numeric.go:177-189 | over a match of n executions the exact value exceeds the logged quotes by at least 0 and by less than n quote atoms |
| `Snapshots.SnapshotLevels` | internal/engine/order.go:255-281 | whatever order the price map is visited in, the rows are those computed from the flat side |
| `Snapshots.Snapshot` | internal/engine/order.go:247-253 | both sides, from a valid book |
| `Snapshots.RowsMean` | internal/engine/order.go:255-281 | rows are distinct prices, best first; each amount is its queue's true total and each running total everything at that price or better, modulo 2^64; a price is missing only if the depth is used up by better ones |
| `Snapshots.AvailableIsPrefixSum` | internal/engine/order.go:275-280 | what rests at a row's price or better is the sum of the rows up to it |
| `Snapshots.PeekIsFirstRow` | internal/util/max_heap.go:29-34 | the heap's top is the level a snapshot lists first, with the same total |
| `BookLaws.PlanSound` | internal/engine/bookworker.go:194-275 | after matching, after the residual rests, and when matching breaks off, the book is valid, holds limit orders only and is not crossed |
| `BookLaws.EditSound` | internal/engine/order.go:187-245 | an amendment keeps the book sound and hands a valid limit order to rematching, absent from the book |
| `Runs.NeverCrossed` | internal/engine/bookworker.go:209-273 | after every command of every run the best bid is below the best ask and no market order rests |
| `Runs.EventSourcing` | internal/engine/bookworker.go:194-275 | folding the event stream of an error-free run over the orders as created succeeds (each order's first event starts at its create command's side, price and amount, each later one where the one before ended, nothing follows a closing event) and gives exactly the resting orders with their prices and amounts |
| `Runs.SilentChangesNothing` | internal/engine/bookworker.go:240-273 | a command that announces nothing leaves the book as it was |
| `Lifecycle.PlanFollows` | internal/engine/order_events.go:21-127 | one command's events continue the histories of its orders and mirror the book it leaves |
| `Lifecycle.MakersFollow` | internal/engine/order_events.go:21-39 | the maker events of a match take the projection from the side before to the side after |
| `OrderEvents.OrderEventBuilder.AddMakerFills` | internal/engine/order_events.go:21-39 | appends one event per transition, numbered on from the batch |
| `OrderEvents.OrderEventBuilder.AddTakerFill` | internal/engine/order_events.go:41-60 | appends the taker's fill, or nothing when nothing was filled |
| `OrderEvents.OrderEventBuilder.Finish` | internal/engine/order_events.go:129-136 | the batch, or nothing if any of its events is invalid |
| `Guards.EventsPassIff` | internal/orderevent/event.go:82-171 | the event batch of a planned command passes validation exactly when the book and the request call for no event, or the command id and ticker are not blank, the sequence is positive, and at most 2^31 events are called for |
| `Guards.AppliesIff` | internal/engine/bookworker.go:194-275 | a command applies exactly when it is accepted, every quote of the trades the book offers it can be expressed, none of them overflows when stored, and its event batch passes; all read off the request and the book |
| `Guards.GreedyTrades` | internal/engine/match.go:50-85 | matching succeeds exactly when every trade the book offers the taker has an expressible quote, and its executions are those trades in order |
| `Stores.StoredIff` | internal/matchlog/postgres/store.go:111-147 | a valid log is refused exactly when its quote is zero and overflows at the default scales; otherwise its row is the log, with version 1 and the default-scale quote where it had none; and when row and log are the same |
| `Guards.CommandGuards` | internal/matchlog/postgres/store.go:116-123 | a command is planned exactly when its trades can be quoted, and its executions can then be stored exactly when none of its trades overflows |
| `Guards.StorableMarketIff` | internal/matchlog/postgres/store.go:116-123 | no trade of a market can overflow exactly when its price and quantity scales together exceed its quote scale by at most 26 |
| `Guards.StorableMarket` | internal/matchlog/postgres/store.go:116-123 | in such a market the store refuses no planned command's executions |
| `Guards.RecomputedQuoteIsRefused` | internal/matchlog/postgres/store.go:116-123 | two commands on an empty book of a market with scales 18, 18 and 8, the second of which matches and then halts its run at the execution store |
| `Guards.BlankIDIsRefused` | internal/orderevent/event.go:86-97 | a command whose id is one space, accepted by the journal and planned, halts its run at the event batch |
| `Runs.RunOkIff` | internal/engine/bookworker.go:134-154 | a run goes through exactly when each command applies to the book the ones before it left |
| `Batches.ValidBatchNumbered` | internal/engine/order_events.go:113-127 | a batch that passes is numbered 0, 1, 2, ... without wrap-around |
| `Announcements.ValidEventIff` | internal/orderevent/event.go:82-145 | exactly when an event is valid: named, numbered and timed, identified by what it is about, and priced like its order's type |
| `Announcements.TransitionIff` | internal/orderevent/event.go:147-171 | a transition is legal exactly when what was there is filled, cancelled or left (an amendment aside) and each type says which of these are positive |
| `Announcements.PlanExplained` | internal/engine/order_events.go:21-111 | every event gives the reason its prices and amounts show; an order rests, is amended or is cancelled only by its own command, and only a market order's remainder is cancelled by its create |
| `Announcements.PlanLaidOut` | internal/engine/bookworker.go:209-272 | a batch is laid out in order: the amendment, one event per execution by its maker at the execution's price and amount, the taker's fill with their sum, and at most one event for a new order's remainder |
| `Announcements.BatchIsStamped` | internal/engine/order_events.go:113-127 | each event carries its command's id, sequence, ticker and recorded time, the market's version, its position, and the order's identity, user, type and side |
| `Conservation.RunConserves` | internal/engine/bookworker.go:221-272 | over every error-free run, for every order: created plus net amendments equals executed plus cancelled plus resting |
| `Conservation.PlanBalance` | internal/engine/order.go:228-242 | the same balance for one command |
| `Conservation.CreateTakesEffect` | internal/engine/bookworker.go:209-239 | executed, resting and cancelled of a created order add up to the requested amount; a limit order has nothing cancelled and rests only at its price, a market order never rests |
| `Conservation.AmendTakesEffect` | internal/engine/bookworker.go:240-266 | after an amendment that takes place, executed and resting of the order add up to the requested amount, and it rests only at the requested price |
| `Conservation.CancelTakesEffect` | internal/engine/bookworker.go:267-272 | after a cancellation the named order is off the book, every other order is as it was, nothing executed, and what was cancelled is what rested |
| `Provenance.CreatedIs` | internal/engine/order.go:79-92 | the created order has the request's user, type, side, nonce, price and amount, the recorded time, and the identity of its tuple |
| `Provenance.EverythingIsCreated` | internal/util/utils.go:11-16 | after every run each resting order, both parties of each execution and the order of each event are ones a create command of the run made, with its user, side and type |
| `Priority.TimePriority` | internal/engine/order.go:212-242 | in every reachable book, the one a failed command leaves included, each price queue is strictly ordered by the sequence of the command that created, repriced or enlarged each order |
| `Priority.NeverReordered` | internal/engine/match.go:79-82 | at every exit, when matching breaks off or the executions are not stored too, no command has reordered or repriced any two orders other than the one it sends to the back |
| `JournalStores.Store.Append` | internal/journal/postgres/store.go:22-64 | the journal and the reported result are those of the step specification, fault by fault |
| `JournalStores.Store.ListTicker` | cmd/server/main.go:191-204 | the listing ordered by sequence is exactly the ticker's rows in insertion order, and Replay does not refuse it |
| `JournalStores.AppendKeepsOrder` | db/query/order_journal.sql:1-20 | any append keeps one row per command id and strictly increasing positive sequences per ticker, and never touches an existing row |
| `JournalStores.AppendReports` | internal/journal/postgres/store.go:37-63 | success means the journal has a row with the request's own id, ticker, type and payload and its version or the default one: new, with the next sequence and the time of the insert, or unchanged; a conflict means the id has a row that differs in one of these |
| `JournalStores.AppendFresh` | internal/journal/journal.go:104-161 | a new id is journalled exactly when its command is well-formed and nothing fails |
| `JournalStores.AppendSeen` | internal/journal/journal.go:163-178 | a repeated id adds nothing; without a fault it succeeds exactly when id, ticker, type, payload and version are those of the row, and is a conflict exactly when a well-formed request differs in one |
| `JournalStores.ListedIsReplayable` | internal/engine/bookworker.go:134-141 | a ticker's rows carry its ticker and strictly increasing positive sequences |
| `Stores.Table.Save` | internal/matchlog/postgres/store.go:48-91 | the transaction loop stores all rows or none, ignores a row that is there already, refuses a changed one |
| `Stores.SaveMatchLogs` | internal/matchlog/postgres/store.go:48-147 | the table is that of the batch specification; after a success every log of the batch is valid and in the table as itself, with a version and a quote if it had none |
| `Stores.SaveOrderEvents` | internal/orderevent/postgres/store.go:44-121 | the table is that of the batch specification; after a success every event of the batch is valid and in the table as itself, with a version if it had none |
| `Stores.EventStoredIff` | internal/orderevent/postgres/store.go:89-121 | an event is refused exactly when it is invalid; its row is the event itself, with version 1 if it had none |
| `Stores.ValidLogIs` | internal/matchlog/postgres/store.go:149-177 | exactly which logs are taken for conversion |
| `Stores.RefusedIffClash` | internal/matchlog/postgres/store.go:66-85 | a batch is refused exactly when one of its rows differs from a stored row or an earlier row of the same identity |
| `Stores.SaveIsIdempotent` | internal/orderevent/postgres/store.go:60-82 | saving a stored batch again succeeds and changes nothing |
| `Stores.SavedIff` | internal/orderevent/postgres/store.go:44-87 | a batch succeeds exactly when it is empty, or no row is refused and nothing fails; a lost or refused batch leaves no row, one that landed leaves all of them and still reports an error |
| `RowIdentity.RunRowsIdentified` | internal/orderevent/event.go:76-80 | no two executions and no two events of a run share an identity |
| `RowIdentity.RunKeysDistinct` | internal/matchlog/log.go:34-38 | the rows of a run have distinct keys, one for each execution and event |
| `Recovery.ProcessFollows` | internal/engine/bookworker.go:109-124 | one journalled command, whatever fails: tables stay within the journal's rows; success means book and rows agree with the run; without a fault it fails only where the run does |
| `Recovery.RestartRecovers` | internal/engine/bookworker.go:134-154 | after any earlier failure, a completed replay has exactly the journal's book and rows; without a fault it completes exactly when the journal's run goes through |
| `Recovery.ReplayedInOrder` | internal/engine/bookworker.go:134-141 | a replay that completes was given rows of its ticker only, in strictly increasing order |
| `Recovery.ReplayRefuses` | internal/engine/bookworker.go:136-141 | a row of another ticker, or out of order, stops the replay before it does anything |
| `Recovery.EveryRunRecovers` | internal/engine/bookworker.go:77-154 | over all runs of submissions, lost and half-reported commits, halts, restarts and foreign writes: nothing is stored beyond the journal's rows, and a live worker's book and rows are exactly those of its journal |
| `Recovery.TablesExact` | internal/orderevent/postgres/store.go:44-87 | the rows a journal calls for are one for each execution and event of its run and no other: the log or event itself, with a version, and a log's quote, filled in where it had none |
| `Recovery.Acknowledged` | internal/engine/bookworker.go:77-132 | success means journalled with the same payload, applied and stored; a halt is acknowledged exactly when the worker is halted; halted, misrouted and empty events change nothing |
| `Requests.CommandIs` | internal/engine/bookworker.go:156-192 | an event becomes a command exactly when the payload of its type is there and names the ticker; the command is that payload under its id, and when it is well-formed |
| `Requests.SuccessIsJournalled` | internal/engine/bookworker.go:77-132 | success of an addressed request, whatever fails, means the ticker's journal has a row with its id, type and payload, and book and rows are exactly those of that journal |
| `Requests.FreshRequest` | internal/engine/bookworker.go:77-132 | a new id without faults: a malformed request is refused without a trace; a well-formed one adds exactly one row, which holds it, and succeeds exactly when that row applies, the book then being what the command makes of it |
| `Requests.RowAppliesIff` | internal/engine/bookworker.go:194-207 | the row of a well-formed request applies, in a market with a version, exactly when its trades can be quoted and stored and its events announced |
| `Requests.SeenRequest` | internal/engine/bookworker.go:109-119 | a known id changes neither journal rows, tables nor book, and succeeds exactly when the row holds the request, the worker is live and nothing fails |
| `Requests.SuccessfulCancel` | internal/engine/bookworker.go:178-187 | after a successful new cancel the named order is off the book and every other order is as it was |
| `Requests.UnsavedNeverRests` | internal/engine/bookworker.go:214-226 | when a create's executions cannot be saved its residual does not rest and no event is stored |
| `Recovery.SeenTakesNoEffect` | internal/engine/bookworker.go:109-119 | a journalled command id never takes effect again, and a retry succeeds exactly for the same payload on a live worker without a fault |
| `Recovery.JournalGrows` | internal/journal/postgres/store.go:22-79 | over every run the journal stays in order and only grows |
| `Recovery.LiveBookIsSound` | internal/engine/bookworker.go:134-154 | a live worker's book is sound and is the fold of its event stream |
| `Rebuild.RowsRebuildBook` | internal/orderevent/postgres/store.go:44-121 | the stored event rows of a live worker's ticker, listed by command sequence and position, fold from the created orders to exactly the orders resting on its book |
| `Rebuild.ListingExists` | internal/orderevent/postgres/store.go:44-121 | such a listing exists for every journal: no two rows share a command sequence and position |
| `Worker.EngineState.Halt` | internal/engine/state.go:21-34 | only the first cause is kept |
| `Worker.BookWorker.ApplyCommand` | internal/engine/bookworker.go:194-275 | the in-place book, the execution table and the event batch after one command are those of the plan, at every exit |
| `Worker.BookWorker.HandleEvent` | internal/engine/bookworker.go:77-132 | one iteration of the loop is one protocol step, and a recorded halt cause never changes |
| `Worker.EveryIterationIsFresh` | internal/engine/bookworker.go:77-132 | in every run whose journal repeats no identity each iteration finds what it requires, so iterations compose into the protocol's runs |
| `Worker.BookWorker.Replay` | internal/engine/bookworker.go:134-154 | the replay loop is the protocol's replay, and stops at the first failure with the engine halted |
| `Worker.StartWorker` | cmd/server/main.go:265-279 | a new worker over the listed journal is the protocol's restart |
| `Dispatch.EveryRunKeeps` | internal/engine/router.go:44-159 | every interleaving of callers, workers, registrations, halts and shutdowns keeps the invariant |
| `Dispatch.SafeShutdown` | internal/engine/router.go:137-159 | nothing is sent to or closed on a closed queue; once closed, queues and workers hold nothing and every sent event has been answered exactly once |
| `Dispatch.ClosedForGood` | internal/engine/router.go:72-112 | once closed nothing is accepted, answered, applied or registered |
| `Dispatch.ClearedIff` | internal/engine/router.go:72-90 | a call passes its checks exactly when the router is open, knows the ticker and, for a command, is not halted |
| `Dispatch.RegisteredIff` | internal/engine/router.go:44-62 | a ticker is registered exactly when it is named and new and the router is open and not in use |
| `Dispatch.LockCloses` | internal/engine/router.go:137-147 | a shutdown closes the router and has every registered queue to close, once |
| `Dispatch.ReaderExcludes` | internal/engine/router.go:72-90 | a caller inside keeps shutdown and registration out |
| `Dispatch.WriterExcludes` | internal/engine/router.go:137-147 | a shutdown at work keeps callers and other shutdowns out |
| `Dispatch.DoneIff` | internal/engine/bookworker.go:77-79 | a worker is done exactly when its queue is closed and empty and it holds nothing |
| `Dispatch.ReceivedIs` | internal/engine/bookworker.go:79-100 | which event a worker takes up, which it answers at once and which it drops |
| `Dispatch.CommandGoesThrough` | internal/engine/router.go:72-90 | a command for a registered ticker with an idle worker takes effect once, by that worker, and its caller is served |
| `Dispatch.AnsweredOrHeld` | internal/engine/bookworker.go:77-131 | a sent event that is not misrouted is answered or held by its one worker; a misrouted one (a snapshot read on its way to a worker of another ticker) is never answered in any run, and only such are dropped |
| `Dispatch.SnapshotIsDropped` | internal/engine/router.go:44-62 | five steps that send a snapshot read through a worker registered under another ticker: it is sent, dropped and not answered |
| `Dispatch.LateWork` | internal/engine/router.go:72-90 | after the first halt a worker that failed applies nothing and any other at most the command it held; no command takes effect twice |
| `Dispatch.CauseSticks` | internal/engine/state.go:21-46 | once a run has a halt cause, no continuation of the run changes it |
| `Decimal.ParseIff` | internal/numeric/numeric.go:191-250 | parsing accepts exactly the well-spelled decimals with at most scale fraction digits whose scaled value fits int64, and gives that exact value |
| `Decimal.ParseSpelled` | internal/numeric/numeric.go:191-250 | for every well-spelled decimal: its exact value, or too many digits, or overflow, and which of them |
| `Decimal.EarlyErrors` | internal/numeric/numeric.go:191-201 | which error a bad scale, a blank text and an exponent get |
| `Decimal.RoundTrip` | internal/numeric/numeric.go:319-340 | parsing undoes printing exactly at scales 0 to 18, except for the smallest value at a positive scale |
| `Decimal.FormatPrints` | internal/numeric/numeric.go:319-340 | every other value prints as its sign, whole part and fraction |
| `Decimal.PrintedIsShort` | internal/numeric/numeric.go:319-340 | the printed form has no needless digit: no leading zero but a single one, no trailing zero after the point, no bare point, a sign exactly for negative values |
| `Texts.TrimIs` | internal/numeric/numeric.go:195 | trimming takes white space off both ends, all of it and nothing else |
| `Decimal.SignIff` | internal/numeric/numeric.go:255-283 | the sign function accepts exactly the well-spelled decimals |
| `Decimal.SignAgrees` | internal/numeric/numeric.go:255-283 | it agrees with the sign of the parsed value at every scale |
| `Decimal.ScanDigits` | internal/numeric/numeric.go:342-349 | the scan accepts exactly the texts of digits |

## Left out

- Runs.FreshIDs: assumed, not proved; the engine does not check that a create's identity is new, and a reused one would overwrite the index entry of a resting order.
- RowIdentity.DistinctTakers: assumed, not proved; two commands with one taker and one recorded time would share execution identities.
- OrderBooks.OrderBook.AddOrder: requires an identity that is new and not empty and a positive amount, which the source leaves to its callers; exactly then the book stays valid (FlatBook.RestValidIff).
- Sides.BookSide.Add: requires the same of one side.
- OrderBooks.OrderBook.EditOrderAt: requires an order that stays on the book to keep a positive amount, which command validation ensures; exactly then the book stays valid (FlatBook.EditValidIff).
- Worker.BookWorker.ApplyCommand: requires a create's identity to be absent from the book; what the source does with a repeated one is not modelled.
- Worker.BookWorker.Replay: requires a journal without repeated identities, for the same reason.
- Worker.StartWorker: requires the same.
- Guards.AppliesIff: assumes a configuration version that is not negative and a ticker that is not empty, as market validation and registration ensure.
- Worker.BookWorker.HandleEvent: requires that a row it inserts creates an identity absent from the book (Worker.EveryIterationIsFresh); one iteration is one step; another worker's halt in the middle of it is ordered before or after it here, and in between in Dispatch.
- Worker.EngineState.Halt: the lock around the cause is not modelled; the causes are labels, not error values.
- The source passes the price map and heap of a side as two arguments; here one object, Sides.BookSide, holds them.
- Levels.Queue.Remove: container/list is a sequence of nodes; removal searches for the node instead of following its links.
- Snapshots.SnapshotLevels: the library's sort is an insertion sort here; prices are distinct, so any sort gives the same rows.
- Dispatch.EveryRunKeeps: safety only; whether a blocked send or a waiting shutdown ever proceeds is not decided, and channel capacities and timeouts are left out.
- Stores.Table.Save: the unique constraints on journal sequences and on event numbers are not separate checks; reading and comparing rows may fail only together with the commit.
- JournalStores.Store.ListTicker: listing every row and splitting the rows by ticker at startup is one loop here, and reading the listing does not fail.
- JournalStores.Store.Append: sequences are unbounded integers; overflow of the 64-bit counter is not modelled.
- Decimal.ParseSpelled: texts of 2^31 characters or more, whose length the source converts to 32 bits, are not modelled; text is a sequence of characters, not of bytes.
- SHA-256 digests and the formats they hash: identities are the hashed tuples.
- JSON encoding of journal payloads: what is decoded is what was encoded, and a journalled row has a supported command type.
- Strings for sides, order types, event types and reasons: only the supported values can be expressed, so the branches that reject others are absent.
- Type assertions on list values: the list is typed.
- Persistence writers and their channels: saving a batch and answering it is one step.
- Precision defaults and validation, tick and lot sizes, the market registry: single-branch checks.
- Logging, clocks, contexts, HTTP, configuration and process wiring.
