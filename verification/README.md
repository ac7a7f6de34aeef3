# A model of the client engines and the core ledger

The repository carries an archived copy of several client libraries, a small scheduler for training jobs that share one
machine, and a build configuration script. This project models their algorithms in Dafny and proves what they
promise.

**The event and decision engine** (`tensorflow-cpu_archivos/16180790160.js`). `Promises` is its promise library: states,
subscribers and the task queue, as a state machine in which user code may act between any two steps of a flush.
`Callbacks` says which callback a reaction calls and what its outcome settles, `Adoption` when a promise takes the
outcome of the one it was resolved with, and `Draining` that flushes end.
`Tracker` is the batch store with its sender, `Sessions` the sessionizer of behaviour events, `EventCodec` the
serializer that shares event bases, `Murmur` and `Bucketing` the hash in 16-bit limbs and the weighted choice,
`Conditions` the three-valued evaluator, `ChangeExecutor` the executor that orders changes by their dependencies, and
`Query` the query engine with its rewriting pass; `Clauses` says what each clause does to the rows, and `Collisions`
when the rewriting goes wrong.

**The other archived scripts.** `Markup` and `MarkupTree` turn a text with overlapping ranges into a tree of nodes
(`screen_004.js`). `Base64`, `Crc32`, `Linker` and `TokenBucket` are the cross-domain linker and the rate limit
(`analytics.js`), `PathResolver` the resolution of relative paths (`vendorsscreen.js`), and `ChunkLoader` the loader
of script chunks (`manifest.js`).

**The repository's own code.** `Ledger` is the ledger of cores, `SchedulingPolicy` the allocation of threads to a new
container, and `Versions` the integer encoding of version numbers (`scheduler/Scheduler-host`, `configure.py`).

`Text` (split, join, white space, numbers as text), `Sorting` (the host's stable sort) and `JsBits` (the 32-bit operators
of JavaScript on integers) serve the others.

## How it is modelled

Where the source updates objects, there is a class with those fields, and every method is proved equal to a function
on the value of the object; runs are sequences of operations applied to that value, and the theorems are about all of
them. Loops of the source that update variables are loops here, each with the function it computes. Clocks, random
numbers, callbacks of user code, the network and the host's JSON text are inputs of the steps. Children of markup
nodes are references into one arena, so that a node shared by two segments is one node.

Where the code does not meet what one would expect of it, the code was kept. A lemma says exactly when it does, for
all inputs, and another one gives the smallest case in which it does not:
`Adoption.AdoptsExactlyWhen` (`Promises.NotLockedIn`), `Tracker.RestoreKeepsExactlyWhen` and `Tracker.RunConserves`,
`Linker.RoundTripIff`, `Base64.RoundTripIff` (`Base64.WideCharactersCollide`), `Sessions.AllAgreeExactlyWhen`
(`Sessions.UnorderedListsDisagree`), `Versions.OrdersExactlyWhen` (`Versions.LargeSegmentsCollide`),
`Collisions.ColumnsRightExactlyWhen` and `Collisions.AgreesExactlyWhen` (`Collisions.DottedNamesDisagree`),
`ChunkLoader.FirstRequireDecides`, `ChangeExecutor.AppliedAfterExactlyWhen` (`ChangeExecutor.FailedLoadBreaksTheChain`),
`Conditions.UnknownIsExactWhen` (`Conditions.ExcludedMiddleIsUnknown`), `TokenBucket.AbortsExactlyWhenDry` and
`SchedulingPolicy.BalancedExactlyWhen` (`SchedulingPolicy.ReleasedTwice`).

## Model

| member | source | states |
|---|---|---|
| Promises.RunKeepsInv | tensorflow-cpu_archivos/16180790160.js:9 | every step of user code and of the flush keeps, for every promise: the reactions registered on it are those that ran followed by those still waiting, each once and in order, and what it has scheduled matches its state |
| Promises.SettledForever | tensorflow-cpu_archivos/16180790160.js:9 | over every run a settled promise never changes its state or result, and what ran is never taken back (Promises/A+ 2.1) |
| Promises.NothingRunsSynchronously | tensorflow-cpu_archivos/16180790160.js:9 | no call of user code (new, resolve, reject, then) runs a reaction (Promises/A+ 2.2.4) |
| Promises.RanInOrder | tensorflow-cpu_archivos/16180790160.js:9 | at every moment of every run the reactions of a promise that ran are the first ones registered, each once, in registration order, and none on a pending promise (Promises/A+ 2.2.6) |
| Promises.AllRanAtRest | tensorflow-cpu_archivos/16180790160.js:9 | once the queue is drained, every reaction ever registered on a settled promise has run exactly once |
| Promises.OneFlushScheduled | tensorflow-cpu_archivos/16180790160.js:9 | in every run exactly one flush is scheduled while tasks wait outside a flush, and none otherwise |
| Draining.FlushDrains | tensorflow-cpu_archivos/16180790160.js:9 | in every run a flush that is scheduled or has begun comes to its end, whatever its callbacks return or throw, once user code makes no further calls: then no task is left and every reaction on a settled promise has run |
| Draining.FlushStepLowers | tensorflow-cpu_archivos/16180790160.js:9 | each step of a flush lowers, lexicographically, the promises pending, the reactions of settled promises not yet run, the callback in progress, the tasks, and the publication in progress |
| Promises.PassesThrough | tensorflow-cpu_archivos/16180790160.js:9 | a `then` without the callback in question hands state and result on to its promise, unless that was settled before |
| Callbacks.CallsWhatThenWasGiven | tensorflow-cpu_archivos/16180790160.js:9 | in whatever step of whatever run the reaction registered by a `then` runs, its promise is settled, and that step calls, with the result of the promise, the first callback given to that `then` if it was fulfilled and the second if it was rejected; where that one is missing, the promise the `then` returned takes state and result, if still pending (Promises/A+ 2.2.2, 2.2.3, 2.2.7) |
| Callbacks.OutcomeSettlesWhatThenReturned | tensorflow-cpu_archivos/16180790160.js:9 | and when that callback ends, whatever was called or stepped in between, what it returned or threw settles the promise that the `then` returned (Promises/A+ 2.2.7.1, 2.2.7.2) |
| Adoption.AdoptsUnlessNamed | tensorflow-cpu_archivos/16180790160.js:9 | in every run, a promise resolved with a pending one, which nothing else was to settle before and which no later call settles by name, is pending until its reaction runs and then has the state and result of the other one, at the latest when the queue is drained |
| Adoption.NamedOtherwise | tensorflow-cpu_archivos/16180790160.js:9 | that nobody settles it by name is needed: in every run, user code that fulfils the promise meanwhile, and then rejects the one it follows, gives them different outcomes for ever |
| Adoption.AdoptsExactlyWhen | tensorflow-cpu_archivos/16180790160.js:9 | in every run, at the moment that reaction runs: the promise ends with the state and result of the one it follows if and only if it is still pending or was settled alike; unless the one it follows was fulfilled with a foreign thenable |
| Adoption.AsksTheThenable | tensorflow-cpu_archivos/16180790160.js:9 | in that case the reaction leaves the promise as it is, and the thenable is asked to settle it |
| Promises.NotLockedIn | tensorflow-cpu_archivos/16180790160.js:9 | the smallest run in which it was not: a promise resolved with a pending promise is fulfilled with a value, and stays so when the other one is rejected |
| Promises.ReactingLeaves | tensorflow-cpu_archivos/16180790160.js:9 | running a reaction of a settled promise never changes the list of subscribers its publication is walking |
| Promises.Core.Asap | tensorflow-cpu_archivos/16180790160.js:9 | `Q`: the task goes to the end of the queue, and it stays true that exactly one flush is requested while tasks wait outside a flush |
| Promises.Core.DoResolve | tensorflow-cpu_archivos/16180790160.js:9 | `T` with `A` and `S`: no reaction runs, what is settled stays, the invariant is kept, and a pending promise becomes what section 2.3 of Promises/A+ says for a plain value, itself, a promise in any state, a thenable or a throwing getter |
| Promises.Core.DoThen | tensorflow-cpu_archivos/16180790160.js:9 | `p`: the returned promise is new and pending, and wherever the reaction is stored under the next number of the promise, with the promise or as a task, it holds the two callbacks as they were given and the returned promise |
| Promises.Core.DoReact | tensorflow-cpu_archivos/16180790160.js:9 | `P` up to the callback: exactly this one reaction is recorded as run and no other, what is settled stays, and the callback of the state of the promise is the one called, with the result of the promise |
| Promises.Core.AfterCallback | tensorflow-cpu_archivos/16180790160.js:9 | `P` after the callback: no reaction runs, what is settled and the invariant are kept, and the promise of the reaction, if pending, is rejected with what was thrown or resolved with what was returned |
| Promises.Core.FlushLoop | tensorflow-cpu_archivos/16180790160.js:9 | `f`: a turn of the flush loop keeps what is settled and the invariant, and with no task left it ends the round with every reaction on a settled promise run and no flush requested |
| Promises.Core.PublishLoop | tensorflow-cpu_archivos/16180790160.js:9 | `O`: the loop over the subscribers is that many steps of the state machine, all of them when no callback of user code intervenes, and then the list is empty |
| Tracker.StepKeepsOrder | tensorflow-cpu_archivos/16180790160.js:10 | once a visitor is registered, no operation but a restore or a reset of the store throws, loses, repeats or reorders an event or a batch |
| Tracker.RunKeepsOrder | tensorflow-cpu_archivos/16180790160.js:10 | over every run of those operations, sent, stored and pending events are together exactly the tracked ones in order, and sent and waiting batches the registered ones |
| Tracker.RunLogs | tensorflow-cpu_archivos/16180790160.js:10 | over every run of those operations, the events sent and held, each with the decisions of its snapshot, are in order those a fold over the operations gives: pending decision events take the decisions last handed in when they become a snapshot, a tracked event takes those of the snapshot it joins |
| Tracker.SendsPreviousFirst | tensorflow-cpu_archivos/16180790160.js:16 | when sending is on, the previous batches are handed over first and then, if there is anything, one batch of all events held with their decisions; when it is off nothing is |
| Tracker.StepConserves | tensorflow-cpu_archivos/16180790160.js:10 | no operation, restores and resets included, invents an event, and one loses none if and only if it is safe, which can be read off the store and what is restored before the call |
| Tracker.RunConserves | tensorflow-cpu_archivos/16180790160.js:10 | over every run of all operations: nothing is invented, and the events and batches held and sent are those at the start and those brought in since if and only if every step was safe |
| Tracker.ExactlyOnePlace | tensorflow-cpu_archivos/16180790160.js:10 | an event brought in once is in exactly one place (sent events, sent batches, snapshots, pending decisions, waiting batches) at the end of every safe run |
| Tracker.SendKeeps | tensorflow-cpu_archivos/16180790160.js:16 | sending never throws then, keeps every event, and leaves memory empty when sending is on |
| Tracker.RestoreKeepsExactlyWhen | tensorflow-cpu_archivos/16180790160.js:10 | restoring invents nothing, and keeps every event of memory and of storage if and only if what it overwrites is empty or restored as well |
| Tracker.RestoredIs | tensorflow-cpu_archivos/16180790160.js:10 | data, decisions and pending events are then what was saved; where both sides have data, the data of memory becomes a previous batch, its pending events recorded with the decisions of memory, and previous batches are kept only when some were saved |
| Tracker.TrackerStore.SendEvents | tensorflow-cpu_archivos/16180790160.js:16 | the sender throws exactly where the model does, and otherwise leaves its state; once a visitor is registered it does not throw, and what was pending goes out with the decisions last handed in |
| Tracker.TrackerStore.RegisterTrackerEvent | tensorflow-cpu_archivos/16180790160.js:10 | once a visitor is registered the call does not throw, the stream of events afterwards is the stream before it followed by this event, and the log of events with their decisions is the log before it after this operation |
| Tracker.TrackerStore.FinalizeBatchSnapshot | tensorflow-cpu_archivos/16180790160.js:10 | once a visitor is registered the call does not throw, leaves no decision event pending and keeps the stream, and what was pending is recorded with the decisions last handed in |
| Tracker.TrackerStore.SetPersistableState | tensorflow-cpu_archivos/16180790160.js:10 | a restore into a well-formed store does not throw, and keeps every event of memory and storage if it is safe |
| Tracker.TrackerStore.ResetTrackerStore | tensorflow-cpu_archivos/16180790160.js:10 | a reset of the store keeps every event if and only if none is held outside of what was sent |
| Sessions.PairAgreesExactlyWhen | tensorflow-cpu_archivos/16180790160.js:11 | on every list, ids and indices agree on two events if and only if the two are in one session or their sessions start at different times |
| Sessions.AllAgreeExactlyWhen | tensorflow-cpu_archivos/16180790160.js:11 | they agree on all events of a list if and only if different sessions start at different times |
| Sessions.IdsAndIndicesAgree | tensorflow-cpu_archivos/16180790160.js:11 | so on time-ordered lists two events share a session id if and only if they share a session index |
| Sessions.IdsFollowSessions | tensorflow-cpu_archivos/16180790160.js:11 | on time-ordered lists ids never decrease and are equal exactly within an unbroken session |
| Sessions.IndicesFollowSessions | tensorflow-cpu_archivos/16180790160.js:11 | indices never increase along the list and are equal exactly within an unbroken session |
| Sessions.SessionsEndAfterHalfAnHour | tensorflow-cpu_archivos/16180790160.js:11 | neighbouring events share id and index exactly when less than 1,800,000 ms lie between them, and the last session has index 0 up to 1,800,000 ms after its last event, then 1 |
| Sessions.UnorderedListsDisagree | tensorflow-cpu_archivos/16180790160.js:11 | the smallest list on which two events share an id but not an index |
| Sessions.IndicesSurviveTruncation | tensorflow-cpu_archivos/16180790160.js:10-11 | dropping a prefix changes no index |
| Sessions.IdsAfterTruncation | tensorflow-cpu_archivos/16180790160.js:10-11 | dropping a prefix changes ids only in the session it cuts into, to the first time that is kept |
| Sessions.IndicesOfLonger | tensorflow-cpu_archivos/16180790160.js:11 | adding one event and moving all indices up when it came out at -1 gives the indices of sessionizing the longer list |
| Sessions.Sessionize | tensorflow-cpu_archivos/16180790160.js:11 | the two loops give every event the id and index of the definition |
| Sessions.Store.AddEvent | tensorflow-cpu_archivos/16180790160.js:10-11 | adding an event to a sessionized store leaves every event with the id and index sessionizing the whole list now would give |
| Sessions.Store.ReindexIfNecessary | tensorflow-cpu_archivos/16180790160.js:11 | all indices move up by one exactly when the new event has -1 |
| Sessions.Store.GetEvents | tensorflow-cpu_archivos/16180790160.js:10-11 | the queue joins the events, the oldest beyond 1000 are dropped, and the rest is sessionized |
| EventCodec.RoundTrip | tensorflow-cpu_archivos/16180790160.js:11 | reading back a stored list gives every event its base's fields and its own time at its own index, for every sharing of bases |
| EventCodec.SharingIsKept | tensorflow-cpu_archivos/16180790160.js:11 | two events read back share a base if and only if they did before |
| EventCodec.Serialize | tensorflow-cpu_archivos/16180790160.js:11 | `qt`: the stored list is the encoding, and the scratch index is gone from every base |
| EventCodec.Deserialize | tensorflow-cpu_archivos/16180790160.js:11 | `Bt`: one fresh base for each record and one event for each time stamp, at its index |
| EventCodec.StoreAndReload | tensorflow-cpu_archivos/16180790160.js:11 | storing and reading back a list of objects keeps fields, times, places and sharing |
| Murmur.V3 | tensorflow-cpu_archivos/16180790160.js:10 | for every string and seed the limb version returns MurmurHash3 (x86, 32 bit) of its low bytes, with every intermediate an exact JavaScript integer |
| Murmur.LimbMultiplies | tensorflow-cpu_archivos/16180790160.js:10 | the multiplication in two 16-bit limbs is multiplication modulo 2^32 |
| Murmur.LimbIntermediates | tensorflow-cpu_archivos/16180790160.js:10 | its products stay below 2^48, so within exact integers |
| Murmur.RotateMatches | tensorflow-cpu_archivos/16180790160.js:10 | the pair of shifts is a rotation of 32-bit words |
| Murmur.AddMatches | tensorflow-cpu_archivos/16180790160.js:10 | the addition of the round constant in two limbs is addition modulo 2^32 |
| Murmur.LoadMatches | tensorflow-cpu_archivos/16180790160.js:10 | four characters are loaded as one little-endian block of their low bytes |
| Murmur.Tail | tensorflow-cpu_archivos/16180790160.js:10 | the switch hashes the last one to three bytes as the reference does |
| Bucketing.BucketIsQuotient | tensorflow-cpu_archivos/16180790160.js:14 | the bucket number is the hash scaled to [0, 10000) |
| Bucketing.BucketsAreEven | tensorflow-cpu_archivos/16180790160.js:14 | every bucket is one interval of hashes, and no two differ by more than one hash |
| Bucketing.ChooseWeightedCandidate | tensorflow-cpu_archivos/16180790160.js:14 | the first candidate whose range ends beyond the bucket is chosen, and without one the call throws |
| Bucketing.EachGetsItsWidth | tensorflow-cpu_archivos/16180790160.js:14 | with non-decreasing ends up to 10000, every candidate gets exactly as many buckets as its range is wide and every bucket chooses somebody |
| Bucketing.HolesAreAboveTheLastEnd | tensorflow-cpu_archivos/16180790160.js:14 | with a lower last end, exactly the buckets from it on choose nobody |
| Conditions.EvalIsMonotone | tensorflow-cpu_archivos/16180790160.js:13 | learning more about the leaves never changes a definite answer, for every nesting of conditions |
| Conditions.OperatorsAndDefault | tensorflow-cpu_archivos/16180790160.js:13 | an array headed by "and", "or" or "not" is that operator on its other elements, in three-valued logic, a "not" of anything but one element being false; any other array is an "or" of all its elements |
| Conditions.DefiniteAnswersAreFinal | tensorflow-cpu_archivos/16180790160.js:13 | true or false with some leaves unknown is the answer of every completion of those leaves |
| Conditions.TotalIsDefinite | tensorflow-cpu_archivos/16180790160.js:13 | without unknown leaves the answer is true or false |
| Conditions.UnknownIsExactWhen | tensorflow-cpu_archivos/16180790160.js:13 | for every condition and all leaves, known or unknown: two completions disagree if and only if the unknown leaves that are used under both an even and an odd number of nots do not decide the condition by themselves |
| Conditions.ExactWhereOneSided | tensorflow-cpu_archivos/16180790160.js:13 | so where no unknown leaf is used both ways, "unknown" is answered exactly when two completions disagree |
| Conditions.EvalIsPushed | tensorflow-cpu_archivos/16180790160.js:13 | pushing the unknown leaves towards true or false, and those under an odd number of nots the other way, pushes the answer |
| Conditions.ExcludedMiddleIsUnknown | tensorflow-cpu_archivos/16180790160.js:13 | the smallest case in which it is not: a leaf used both ways leaves a tautology undecided |
| Conditions.Evaluate | tensorflow-cpu_archivos/16180790160.js:13 | the loops with their early exits compute the three-valued meaning of the condition |
| ChangeExecutor.StartedOnce | tensorflow-cpu_archivos/16180790160.js:14 | on every finite graph, cycles included, each change is started at most once and the known changes of the action are |
| ChangeExecutor.StartedExactlyWhenReached | tensorflow-cpu_archivos/16180790160.js:14 | an action starts exactly its known changes and the known changes they depend on, directly or through others |
| ChangeExecutor.WaitsAreEarlier | tensorflow-cpu_archivos/16180790160.js:14 | a change waits only for changes entered in the table before it, whatever the graph |
| ChangeExecutor.OnlyCyclesAreCut | tensorflow-cpu_archivos/16180790160.js:14 | a known dependency is waited for unless it depends, through others, on the change itself |
| ChangeExecutor.AppliedAfterDependencies | tensorflow-cpu_archivos/16180790160.js:14 | on acyclic graphs, over every order of loads, failures and finished appliers, each change is applied at most once and only when every known dependency has settled |
| ChangeExecutor.NeverStuck | tensorflow-cpu_archivos/16180790160.js:14 | while a started change is unsettled some event can go on, even with circular dependencies |
| ChangeExecutor.AppliedAfterExactlyWhen | tensorflow-cpu_archivos/16180790160.js:14 | on every acyclic graph and for every set of loads that may fail: a started change with an applier is, over all runs in which no other load fails, applied only after d has settled if and only if a chain of dependencies leads from it to d on which no load in between may fail |
| ChangeExecutor.AppliedAfterChain | tensorflow-cpu_archivos/16180790160.js:14 | in one run, an applied change has everything down a chain of dependencies settled, if no load in between failed |
| ChangeExecutor.AppliedAfterAllDependencies | tensorflow-cpu_archivos/16180790160.js:14 | over every run in which no load fails, an applied change has all it depends on settled, directly or through others |
| ChangeExecutor.FailedLoadBreaksTheChain | tensorflow-cpu_archivos/16180790160.js:14 | the smallest case in which it is not: a change is applied while a dependency of its dependency has not settled, and no such chain exists |
| ChangeExecutor.FailedLoadSkips | tensorflow-cpu_archivos/16180790160.js:14 | a failed load settles its change at once, whatever its dependencies do, and the change is never applied |
| ChangeExecutor.OnlyFailedLoadsSkip | tensorflow-cpu_archivos/16180790160.js:14 | over every run a change is applied only if it has an applier and, where it must be loaded, was loaded; one with an applier settles when that has finished, or else because its load failed, and is not applied then |
| ChangeExecutor.Executor.Ask | tensorflow-cpu_archivos/16180790160.js:14 | `r`: the recursion terminates with the table and the promise the definition gives |
| ChangeExecutor.Executor.ExecutePrepared | tensorflow-cpu_archivos/16180790160.js:14 | `executePreparedAction`: the promises waited for are exactly those of the known changes of the action |
| Query.RewritePreserves | tensorflow-cpu_archivos/16180790160.js:14-15 | for all operators of which count depends on the number of rows only, the rewritten query has the rows of the query as written, aggregates of HAVING computed on each group, in the same order and apart from the columns of lifted aggregates, if no name of a lifted aggregate other than a count is used for anything else |
| Query.SatisfiedMeansReference | tensorflow-cpu_archivos/16180790160.js:15 | under those conditions `execute` returns as many rows as the query as written, whose clauses are those of `Clauses`, and with SELECT the very same rows |
| Query.RewriteIdempotent | tensorflow-cpu_archivos/16180790160.js:15 | rewriting twice is rewriting once |
| Query.GroupsPartition | tensorflow-cpu_archivos/16180790160.js:14 | grouping partitions the rows: distinct keys, each group exactly the rows of its key in order, every row in a group, sizes adding up to the number of rows |
| Query.LiftMeaning | tensorflow-cpu_archivos/16180790160.js:14-15 | a rewritten expression has on the row with the added columns the value the original has on the group |
| Query.DotFreeIsConsistent | tensorflow-cpu_archivos/16180790160.js:14-15 | aggregates over fields whose names hold no dot never collide |
| Query.AliasTellsOperator | tensorflow-cpu_archivos/16180790160.js:14 | equal aliases have equal operators and equal joined field names |
| Query.DottedNamesCollide | tensorflow-cpu_archivos/16180790160.js:14-15 | with dots they can: of the sums over two different options of an event one column remains |
| Clauses.FromFeeds | tensorflow-cpu_archivos/16180790160.js:15 | a nested query is executed first, and the rest of the query on its rows |
| Clauses.WhereFilters | tensorflow-cpu_archivos/16180790160.js:14-15 | WHERE keeps, in their order, the rows on which the condition as written is true |
| Clauses.AggregateSums | tensorflow-cpu_archivos/16180790160.js:14-15 | GROUP_BY and AGGREGATE make one row of each group: each aggregate has its value over the rows of the group, the last of a name winning, each field grouped by has the value all of them share, and there is no other column |
| Clauses.OrderBySorts | tensorflow-cpu_archivos/16180790160.js:15 | ORDER_BY returns the rows of the query without it, each as often: at the first field in which two rows differ the smaller value comes first, or the greater one when descending, and rows that differ in none stay as they were |
| Clauses.LimitCuts | tensorflow-cpu_archivos/16180790160.js:15 | with OFFSET u and LIMIT c, row k of the result is row u + k of the query without them, for as many of the c rows as there are |
| Clauses.SelectEvaluates | tensorflow-cpu_archivos/16180790160.js:15 | SELECT evaluates its expressions in their order on each row of the query without it |
| Clauses.MostRecent | tensorflow-cpu_archivos/16180790160.js:14 | so a query ordered by one field descending with limit 1, as the one for the most recent event, returns a row whose field no other row exceeds |
| Collisions.ColumnsRightExactlyWhen | tensorflow-cpu_archivos/16180790160.js:14-15 | for the operators as they are (a count counts rows, the others notice a value where there was none): every aggregate of HAVING finds its own value in the rewritten row, for all groups of stored events, if and only if those that share a name are counts, or over one field, or over fields no event can have |
| Collisions.CollisionSeparates | tensorflow-cpu_archivos/16180790160.js:14-15 | whenever two aggregates of HAVING break that condition, there are operators with those laws and a stored event on which the rewritten query has another number of rows than the query as written (queries on events, HAVING made of known operators, the first row not cut off) |
| Collisions.AgreesExactlyWhen | tensorflow-cpu_archivos/16180790160.js:14-15 | for such a query whose other names are clean, both have equally many rows, for all operators with those laws and all stored events, if and only if the same condition holds |
| Collisions.SelectsExactlyWhen | tensorflow-cpu_archivos/16180790160.js:14-15 | and with that condition, both select the same, for all such operators and events, if and only if SELECT reads no column that only the rewriting added |
| Collisions.PreservedOnEvents | tensorflow-cpu_archivos/16180790160.js:14-15 | on stored events the rewritten query has the rows of the query as written even where names are shared by fields that no event can have |
| Collisions.DottedNamesDisagree | tensorflow-cpu_archivos/16180790160.js:14-15 | the smallest case, with sum, gt, eq and truth as the source has them: on one event with the options {a: {b: 1}, "a.b": 0}, HAVING gt(sum o.a.b, sum "a.b" of o) keeps one row in the query as written and none in the rewritten one |
| Query.RowHidden | tensorflow-cpu_archivos/16180790160.js:14-15 | without the added columns, a group's row in the rewritten query is its row in the query as written |
| Query.Rewriter.Walk | tensorflow-cpu_archivos/16180790160.js:15 | `i` with its accumulators returns the rewritten expression and has collected each aggregate of a new alias, in order |
| Query.RewriteQuery | tensorflow-cpu_archivos/16180790160.js:15 | the pass over all clauses, nested queries included, computes the rewriting |
| Query.GroupTheRows | tensorflow-cpu_archivos/16180790160.js:14 | `_`: the loop with the table of keys computes the groups, one group of all rows when nothing is grouped by |
| Query.ComputeColumns | tensorflow-cpu_archivos/16180790160.js:14-15 | `h`: the loop computes the columns of a group, later names winning, unknown operators skipped |
| MarkupTree.LeavesAreTheText | tensorflow-cpu_archivos/screen_004.js:1 | the leaves of the rendered tree read in order are the text, for every text, every set of overlapping markups and highlights without negative offsets, with or without a drop cap |
| MarkupTree.CharactersAreCovered | tensorflow-cpu_archivos/screen_004.js:1 | without a drop cap every character lies under one node for each item that has a node and covers it, and under no other; which kinds have a node, and which, is `MarkupTree.CharactersAreMarked` |
| MarkupTree.CharactersAreMarked | tensorflow-cpu_archivos/screen_004.js:1 | read off the markups as they are stored, by their kinds: every character lies under one strong, em, code, link, mention or quote node for each STRONG, EM, CODE, A with a target, highlight or highlight segment over it, with its target, id or start, under one quote with the ids of all full highlights over it, and under no other node; quotes are outside code, that outside links, strong and em; and the first segment of a drop cap has nothing but the drop cap |
| MarkupTree.PathItems | tensorflow-cpu_archivos/screen_004.js:1 | the text of a segment lies under a node for each of its items that has one, in their order |
| MarkupTree.NodesAreShared | tensorflow-cpu_archivos/screen_004.js:1 | neighbouring segments share a node if and only if what covers them is the same from the outside up to that node |
| MarkupTree.PushShows | tensorflow-cpu_archivos/screen_004.js:1 | a child pushed to the end of the rightmost path shows after everything else, under the nodes of that path, and changes nothing before it |
| MarkupTree.FollowPath | tensorflow-cpu_archivos/screen_004.js:1 | the inner loop of `de` reuses the longest agreeing start of the old path, makes nodes for the rest, and shows nothing new |
| MarkupTree.Build | tensorflow-cpu_archivos/screen_004.js:1 | `de` builds a tree, each node with one parent, that shows the segments in order under their paths |
| MarkupTree.RenderParagraph | tensorflow-cpu_archivos/screen_004.js:1 | a paragraph rendered in place shows its text, and each of its characters lies under the nodes `MarkupTree.CharactersAreMarked` gives for it |
| Markup.SortSorts | tensorflow-cpu_archivos/screen_004.js:1 | markups come out ordered by type, start, end and text, none lost or doubled |
| Markup.PointsAre | tensorflow-cpu_archivos/screen_004.js:1 | the points rise and are exactly the ends of the text, of the markups and of the drop cap |
| Markup.SegmentPoints | tensorflow-cpu_archivos/screen_004.js:1 | the segments start at the points, from 0 to the end of the text or beyond |
| Markup.CoveringConstant | tensorflow-cpu_archivos/screen_004.js:1 | between neighbouring points the same markups cover every character |
| Markup.MergeHighlights | tensorflow-cpu_archivos/screen_004.js:1 | the highlights covering a point become one item with all their ids, in order |
| Markup.MergeOwns | tensorflow-cpu_archivos/screen_004.js:1 | merging keeps every other markup exactly as often as it was there |
| Markup.SegmentOf | tensorflow-cpu_archivos/screen_004.js:1 | without a drop cap, the segment of a character has exactly what covers that character |
| Markup.MergeItems | tensorflow-cpu_archivos/screen_004.js:1 | the `reduce` that grows the merged object in place computes the merge |
| Markup.ComputeSegments | tensorflow-cpu_archivos/screen_004.js:1 | `pe`: the loops compute the segments |
| ChunkLoader.EntriesWaited | tensorflow-cpu_archivos/manifest.js:1 | over every order of arrivals, errors and timeouts, an entry that ran has all its chunks installed |
| ChunkLoader.BodiesRunOnce | tensorflow-cpu_archivos/manifest.js:1 | no module body runs twice, circular requires included |
| ChunkLoader.PromisesSettleOnce | tensorflow-cpu_archivos/manifest.js:1 | each chunk promise is settled at most once, and is settled exactly when its chunk no longer waits for it |
| ChunkLoader.AskingRequestsOnce | tensorflow-cpu_archivos/manifest.js:1 | asking for a chunk that is neither installed nor awaited makes one request, asking again makes none, and at any time at most one request of a chunk is awaited |
| ChunkLoader.HandlersRejectTheirOwn | tensorflow-cpu_archivos/manifest.js:1 | the handler of a script never rejects the promise of another request |
| ChunkLoader.ArrivalRunsTheReady | tensorflow-cpu_archivos/manifest.js:1 | no entry is lost or runs twice, and after an arrival that did not throw no ready entry is left in the queue |
| ChunkLoader.InstalledForGood | tensorflow-cpu_archivos/manifest.js:1 | an installed chunk stays installed |
| ChunkLoader.FirstRequireDecides | tensorflow-cpu_archivos/manifest.js:1 | the body of a module runs, whatever happens later, if and only if the module had arrived when it was first required |
| ChunkLoader.RequiredTooEarlyNeverRuns | tensorflow-cpu_archivos/manifest.js:1 | requiring a module that has not arrived throws and caches its record, so its body never runs, even after it arrives |
| ChunkLoader.AskedForRuns | tensorflow-cpu_archivos/manifest.js:1 | a module that has arrived and is required for the first time runs before any module it requires |
| ChunkLoader.LastBodyCounts | tensorflow-cpu_archivos/manifest.js:1 | a module is there exactly when a chunk has brought it, with the body that was brought last |
| ChunkLoader.CheckSplits | tensorflow-cpu_archivos/manifest.js:1 | the loop that removes entries while it walks runs the ready ones in order and leaves the others in place, up to the first throw |
| ChunkLoader.Loader.RequireModule | tensorflow-cpu_archivos/manifest.js:1 | `o`: the state after a require, nested ones included, and whether it threw |
| ChunkLoader.Loader.CheckDeferred | tensorflow-cpu_archivos/manifest.js:1 | `r`: the loop with its splice does the check |
| ChunkLoader.Loader.OnArrival | tensorflow-cpu_archivos/manifest.js:1 | `n`: chunks are marked, modules copied, promises resolved and the queue checked |
| ChunkLoader.Loader.OnScript | tensorflow-cpu_archivos/manifest.js:1 | `c`: the handler of a script keeps the invariant and settles its own promise only, at most once |
| PathResolver.ResolvedIsStandard | tensorflow-cpu_archivos/vendorsscreen.js:1 | for every absolute or empty base path and every reference, the right-to-left pass computes merge and remove_dot_segments (sections 5.2.3 and 5.2.4 of RFC 3986) |
| PathResolver.ResolvedIsNormal | tensorflow-cpu_archivos/vendorsscreen.js:1 | a resolved path is absolute and has no segment "." or ".." |
| PathResolver.KeptIsFold | tensorflow-cpu_archivos/vendorsscreen.js:1 | with i skips pending, the pass from the right keeps all but the top i of the stack a pass from the left builds |
| PathResolver.StandardIsFold | tensorflow-cpu_archivos/vendorsscreen.js:1 | the buffers of section 5.2.4 of RFC 3986 are a stack of segments |
| PathResolver.Walk | tensorflow-cpu_archivos/vendorsscreen.js:1 | the loop that splices in place keeps those segments, and tells whether the first one was skipped |
| PathResolver.Resolve | tensorflow-cpu_archivos/vendorsscreen.js:1 | the resolver returns the standard's path |
| Crc32.ByteStep | tensorflow-cpu_archivos/analytics.js:6-7 | eight shifts of the register equal one table lookup |
| Crc32.LookupStep | tensorflow-cpu_archivos/analytics.js:6-7 | the signed 32-bit values of the loop hold the register of the bit-serial definition |
| Crc32.DetectsBursts | tensorflow-cpu_archivos/analytics.js:6-7 | any change within four consecutive characters changes the checksum |
| Crc32.Fingerprinter.Crc | tensorflow-cpu_archivos/analytics.js:6-7 | for every string the table-driven checksum is the bit-serial CRC-32 of its low bytes, and the table is kept |
| Base64.RoundTripIff | tensorflow-cpu_archivos/analytics.js:3-4 | decoding an encoded string gives it back if and only if every character is below 256, or below 260 where a group of three begins |
| Base64.GroupDigits | tensorflow-cpu_archivos/analytics.js:3-4 | the digits of a group are the base-64 digits of its 24 bits (section 4 of RFC 4648) |
| Base64.EncodedShape | tensorflow-cpu_archivos/analytics.js:3-4 | encoded text has groups of four table characters |
| Base64.TablesAreInverse | tensorflow-cpu_archivos/analytics.js:3-4 | the two tables are inverse to each other |
| Base64.WideCharactersCollide | tensorflow-cpu_archivos/analytics.js:3-4 | the smallest example of two strings that encode alike |
| Base64.EncodeText | tensorflow-cpu_archivos/analytics.js:3-4 | `G`: the loop encodes |
| Base64.DecodeText | tensorflow-cpu_archivos/analytics.js:3-4 | `H`: the loop decodes, and throws where the definition has no value |
| Linker.RoundTripIff | tensorflow-cpu_archivos/analytics.js:3-10 | within the minutes that are checked and with the same fingerprint, parsing a generated link returns its parameters if and only if no key holds a star or a line terminator or is "__proto__", and every value is one the base64 codec gives back |
| Linker.ParsedKeysAreClean | tensorflow-cpu_archivos/analytics.js:7-10 | no link whatsoever is parsed to a key of that kind |
| Linker.ReadExactlyWhenFresh | tensorflow-cpu_archivos/analytics.js:5-10 | a link is read exactly when its fingerprint is the CRC-32, in base 36, of user agent, time zone, language, one of the three minutes that are tried and the first line of the payload, joined by stars; what is read is what that line holds |
| Linker.AlteredLinksAreRefused | tensorflow-cpu_archivos/analytics.js:5-10 | a link whose payload was altered within four consecutive characters, or that is read by a browser whose user agent, time zone or language differs so, is not accepted by the minute it was written in, and so is not read unless another minute that is tried gives the same checksum |
| Text.DigitsRead | tensorflow-cpu_archivos/analytics.js:5-6 | reading the digits of a number gives it back, so different checksums have different fingerprints |
| Linker.GenerateLink | tensorflow-cpu_archivos/analytics.js:3-10 | `T`: the link that is written, with the checksum of its own payload, browser and minute as fingerprint |
| Linker.ParseLink | tensorflow-cpu_archivos/analytics.js:7-10 | `U`: the parameters that are read, or none; of a link, those its payload holds exactly when its fingerprint is fresh |
| TokenBucket.RateLimit | tensorflow-cpu_archivos/analytics.js:32 | in every run on a non-decreasing clock, at most 20 + T/250 limited hits pass within T milliseconds of any limited hit, and stored tokens stay in [0, 20] |
| TokenBucket.WindowBound | tensorflow-cpu_archivos/analytics.js:32 | the same bound from any reachable state |
| TokenBucket.RunPotential | tensorflow-cpu_archivos/analytics.js:32 | tokens, last refill and passes trade against each other over every run |
| TokenBucket.AbortsExactlyWhenDry | tensorflow-cpu_archivos/analytics.js:32 | a limited hit is aborted if and only if no token is left and the last refill is less than 250 ms ago |
| TokenBucket.CountsWhatPasses | tensorflow-cpu_archivos/analytics.js:32 | over every run the counter of hits grows by the hits that get through and by no aborted one |
| TokenBucket.BoundIsReached | tensorflow-cpu_archivos/analytics.js:32 | the bound is tight: from a fresh bucket 20 hits at once and one every 250 ms all pass, exactly 20 + T/250 of them within T milliseconds, for every such T |
| TokenBucket.QuarterSecondsAlwaysPass | tensorflow-cpu_archivos/analytics.js:32 | hits every 250 ms pass for ever, twice the nominal rate |
| TokenBucket.Limiter.LimitHit | tensorflow-cpu_archivos/analytics.js:32 | in a reachable state: the task aborts exactly when no token is left and the last refill is less than 250 ms ago, the tokens stay in [0, 20], and the potential that bounds the passes does not grow |
| Versions.EncodingOrders | configure.py:440-462 | on equally long lists whose segments after the first are below 1000 the integers compare exactly as the lists do, and are equal only for equal lists |
| Versions.OneListPerInteger | configure.py:440-462 | of every length exactly one such list has a given integer |
| Versions.OrdersExactlyWhen | configure.py:440-462 | a list compares rightly with every such list of its length if and only if it is one itself; otherwise it shares its integer with another list of its length |
| Versions.ConvertOrders | configure.py:440-462 | the same for version strings |
| Versions.LargeSegmentsCollide | configure.py:440-462 | the smallest example: 0.1000.0 and 1.0.0 are equal |
| Versions.AcceptedIsBetween | configure.py:486-508 | a release other than 0.0.0 is accepted exactly when it lies between the bounds |
| Versions.LabelledVersion | configure.py:465-509 | the version checked is what follows the label in the first line that has it, and the whole output if none has |
| Versions.ConvertVersionToInt | configure.py:440-462 | the loop with its early return computes the encoding, or none for a part that is no number |
| Versions.CheckBazelVersion | configure.py:465-509 | which version is checked, and with what verdict |
| Ledger.RunsBalance | scheduler/Scheduler-host/system.py:14-25 | over every run of grants and matching frees the cores in use are the sum of the outstanding grants, and exceed the machine by no more than what was granted without control |
| Ledger.NeverOverCommits | scheduler/Scheduler-host/system.py:14-25 | with control on, the ledger never counts more cores than there are |
| Ledger.SystemInfo.ApplyResources | scheduler/Scheduler-host/system.py:17-22 | a grant is refused exactly when control is on and it exceeds the free cores; the count stays balanced by the outstanding grants, and within the machine when control is on |
| Ledger.SystemInfo.FreeResources | scheduler/Scheduler-host/system.py:24-25 | giving back an outstanding grant leaves the count balanced by the remaining ones, and not negative |
| SchedulingPolicy.NeverOversubscribes | scheduler/Scheduler-host/scheduling_policy.py:75-156 | no policy allocates more threads than cores are available (on exact quotients) |
| SchedulingPolicy.AlwaysAttendFits | scheduler/Scheduler-host/scheduling_policy.py:75-156 | although rounding half to even may round both shares up, an order larger than the cores available gets shares that fit (on exact quotients) |
| SchedulingPolicy.ServedExactlyWhen | scheduler/Scheduler-host/scheduling_policy.py:75-156 | an order is served exactly when all it asks for is available ("strict") or two cores are (the others), and then with one inter-op thread |
| SchedulingPolicy.StrictGrantsInFull | scheduler/Scheduler-host/scheduling_policy.py:75-156 | "strict" grants the total asked for if and only if at most two inter-op threads were asked for |
| SchedulingPolicy.MaxPropGrants | scheduler/Scheduler-host/scheduling_policy.py:75-156 | with more than two cores, the proportional policy gives the largest number of intra-op threads that leaves a core, is within the limit and is at most what was asked for divided by the factor, but at least one (on exact quotients) |
| SchedulingPolicy.AlwaysAttendIsProportional | scheduler/Scheduler-host/scheduling_policy.py:75-156 | with too few cores, the intra-op threads are within one and a half of their share of the cores (on exact quotients) |
| SchedulingPolicy.AttendStart | scheduler/Scheduler-host/scheduler.py:135-380 | one start request: the allocation, whether the container runs, and the cores counted afterwards, never more than the machine has |
| SchedulingPolicy.ChargedExactlyWhen | scheduler/Scheduler-host/scheduler.py:135-380 | a container that runs is charged its threads; one that does not leaves the count alone if and only if nothing was allocated or all that was reserved was |
| SchedulingPolicy.RunAccounts | scheduler/Scheduler-host/scheduler.py:1012-1138 | over every run of start requests and finishing containers the ledger counts the threads of the running containers less all that was given back twice |
| SchedulingPolicy.BalancedExactlyWhen | scheduler/Scheduler-host/scheduler.py:1012-1138 | from an idle machine, over every such run: the ledger counts exactly the threads of the running containers if and only if every attempt whose connection failed had used up its reservation, and then they fit the machine |
| SchedulingPolicy.ReleasedTwice | scheduler/Scheduler-host/scheduler.py:135-380 | otherwise the unused part is given back twice: an idle machine counts -1 cores |
| SchedulingPolicy.Fcfs.CalculateFactorProp | scheduler/Scheduler-host/scheduling_policy.py:209-252 | the factor is demand over free cores and both queues are as before; with containers running, a request of another kind raises and what was taken out is lost |

## Left out

- The DOM, cookies, storage, network and frames, React and GraphQL, logging and error reporting.
- Wall clocks, random numbers and browser properties are inputs. Their values are arbitrary, except where a lemma requires a non-decreasing clock.
- Promises: `Promise.all` and `race`, the `_onerror` hook, and the flag that lets a foreign thenable settle its promise only once. Calls that the flag would stop are among the calls user code may make at any time.
- Promises: ids of promises that do not exist can be written in the model and name nothing.
- Tracker: the sender's joining of like events within a snapshot before it is sent, and the transport itself.
- EventCodec: JSON text, and the cached hash of a base, which is a constant field here.
- Query: the bodies of the operators and aggregates are parameters of the theorems; an aggregate depends on the values of its field only. The key of a group is the list of values it is made from, for the URI-encoded JSON text of the source. The sort is the stable one by the clause's comparison.
- Query: operator names that every JavaScript object inherits, such as "toString".
- Query.RewritePreserves: gives a sufficient condition on names. For queries on stored events `Collisions.AgreesExactlyWhen` shows that the part about the aggregates of HAVING is necessary too, and `Collisions.SelectsExactlyWhen` the part about SELECT; where HAVING or ORDER BY read a column only the rewriting added, and for queries on the rows of another query, it is sufficient only.
- Collisions.CollisionSeparates: requires that the query reads events and not the rows of another query, that HAVING has no unknown operator, and that OFFSET and LIMIT leave the first row. Without these a collision need not show: the fields may be missing from the inner rows, an unknown operator is undefined whatever its arguments are, and a row that is cut off shows nothing. For one fixed table of operators a wrong column need not show either, as where HAVING compares it with itself; what is exact for a fixed table is `Collisions.ColumnsRightExactlyWhen`.
- Collisions.SelectsExactlyWhen: is about SELECT made of known operators that reads no property of an added column, which holds a number.
- Collisions.DottedNamesDisagree: has the operators of the source on whole numbers, and of them only those its query uses.
- Clauses.OrderBySorts: requires that the comparison of values is a strict weak order, as `<` is on numbers and on strings but not on mixtures of them.
- Clauses.WhereFilters: is about queries on events with nothing but WHERE; `Clauses.FromFeeds` and the other rows of `Clauses` add the clauses one by one, HAVING by `Query.RewritePreserves`.
- Markup: markups of an unknown type, which compare as not-a-number, and stored markups of type DROPCAP. The length of the drop cap and the comparison of JSON texts are parameters.
- MarkupTree.CharactersAreCovered: is about paragraphs without drop cap, because the drop cap replaces all other markups of the first segment.
- Linker.AlteredLinksAreRefused: changes that are longer than four characters, or not in the low byte, can meet the same checksum, as with any of 32 bits.
- ChunkLoader: which script a chunk comes from. A module body is the list of its requires, chunk requests and a possible throw; exceptions are not caught between modules.
- Conditions: an array whose head names a property that every JavaScript object inherits, such as "constructor", and would be taken for an operator.
- ChangeExecutor: what an applier does; it settles or does not. The state of the action, of which only the presence of an applier matters here.
- PathResolver: relative base paths, and the rest of URL parsing.
- Versions: digits other than 0 to 9 that `isdigit` accepts.
- SchedulingPolicy.NeverOversubscribes: rests on SchedulingPolicy.AlwaysAttendFits, and so on exact quotients.
- SchedulingPolicy.BalancedExactlyWhen: takes start requests and finishing containers one at a time; updates, restarts, pauses and reassignments are not among its events.
- SchedulingPolicy.AlwaysAttendFits: takes the quotients and shares as exact reals, where the source divides Python floats.
- SchedulingPolicy: the priority policy, which has the same loops over several queues, and everything done to containers that run already.
- The scripts of the examples, the package templates and the data tables.
