# A verified model of the research agent, its wiki and its gates

This project models the parts of the repository where an argument about *every* run is needed, and proves those
arguments with Dafny 4.11. `dafny verify dfyconfig.toml` checks all of it.

| Part of the system | Modules |
|---|---|
| The DAG scheduler: fibers that act on shared cells, in every interleaving | `SchedulerModel` (state machine and the outcomes that the graph alone determines), `SchedulerSafety` (invariants), `SchedulerTheorems` (results), `SchedulerCompleteness` (when no run loses a node), `SchedulerRace` (a run that does), `SchedulerRun` (the loop as code over mutable cells) |
| Its work graph and the walk that feeds it | `Dag`, `WorkGraphs`, `Traversal` |
| The event-sourced wiki | `WikiDomain` (decide, evolve, replay, intents), `WikiTrace` (the grammar of a stream), `WikiStore` (the in-memory store), `WikiInvariants`, `WikiRuns` (histories), `WikiPostgres` (concurrent transactions), `WikiRefinement`, `WikiSerializable` |
| The streaming monitors and the gate that dispatches them | `MonitorModel`, `MonitorSoundness` (what a verdict promises), `MonitorMatching`, `MonitorOrderOpen`, `MonitorRatioOpen`, `MonitorOpen` (what an undecided one is worth on any stream), `MonitorInOrder` (on a stream in timestamp order), `MonitorMeaning`, `MonitorClasses`, `Gate` |
| The hash chain, the rate limiters, the canonical JSON printer | `Chain`, `RateLimit`, `RedisLimiter`, `Digest` |
| Shared | `Common`, `Sorting`, `JsText` |

Where the source changes state in place (the scheduler's loop, the stores, the monitors, the limiters), a class with
the same fields and methods is proved against a function on values, and the laws are proved about that function. Where
it is concurrent (fibers, transactions, replicas), it is a state machine whose steps are the single reads and writes,
and the laws hold for every sequence of steps.

## Results that contradict the code's own words

- **The scheduler can lose a node.** The loop reads the run state twice, once to plan (line 150) and once to decide
  about stopping (line 167). If the last fiber finishes between the two, the loop stops although a node has become
  ready. `SchedulerCompleteness.CompleteIffOneBatch` says for which graphs: every run reports every node if and only if
  each node is in the first batch that the loop plans, or is skipped because something above it fails. As soon as a
  second batch is needed (a node that depends on another one, or more nodes than `concurrency`), some schedule loses
  it: `SecondBatchCanBeLost`, and `SchedulerRace.ARunCanLoseANode` for a chain of two nodes. `PromptRunsAreComplete`
  shows that no node is lost if the two reads act as one. Safety and the outcomes do not depend on this.
- **A `PEND` verdict does not always mean that both outcomes are open, and monitors do not commit at once when a verdict
  becomes inevitable** (`_vendor/ooptdd/engine/monitor.py:3-15`). For streams in store-timestamp order, of which those
  words speak, `MonitorInOrder.OpenInOrderIsExact` gives the exact condition for every monitor, in terms of its
  parameters, its counters and the last event; where it fails, the outcome is the present one on every continuation.
  `must_order: [a, b]` after b and then a later c is undecided, although it can no longer pass
  (`AnUndecidedOrderCannotPass`), and so is a heartbeat after an event without a timestamp
  (`AnUndecidedHeartbeatCannotPass`). A live feed can go back in time; for that, `MonitorOpen.OpenIsExact` gives the
  exact condition. A `!=` count past its threshold can no longer fail in either case (`AnUndecidedCountCannotFail`), and
  a conformance check without an ontology can never pass (`AnUndecidedCheckCannotPass`). Further cases are matchers that
  no event to come can match, forbidden events that are all allowed, a negative `every_s` or `within_s`, and ratios that
  no further event can move across the threshold.
- **`stream_key` puts events without a timestamp last**, not first as its docstring says; the docstring is right only of
  streams where all events have a timestamp or none has (`MonitorMeaning.TimedComeFirst`).
- **The Redis window is half-open and shorter than the configured one, the in-process one closed**: with timestamps
  that lag the order of execution by at most `delta`, the closed windows that keep to the limit are exactly those
  shorter than the window less `delta` (`RedisLimiter.ClosedBoundedIff`).
- **A limiter that fails open does not keep to its limit across the fleet**, unless the limit is 0 or less
  (`RedisLimiter.BoundedIffFailClosed`). The exact bound is the limit times one more than the number of replicas
  (`RedisLimiter.BoundIsExact`).
- **An accepted hash chain does not tell its key**: HMAC fills up short keys with zero bytes and hashes long ones, so
  keys that differ in zero bytes at the end accept the same lists (`Chain.ZeroAtTheEndIsLost`, `AcceptanceTellsTheKey`).
- **The in-memory wiki store checks only the slug of a new page**: an accepted command keeps the store in order if and
  only if the ids generated by its caller are new (`WikiRuns.OkIffFresh`). Two creations under one page id with different
  slugs are both accepted, and the page's stream no longer replays (`WikiRuns.AUsedPageIdIsAccepted`). The Postgres version gets this from its unique
  keys: every commit is fresh (`WikiSerializable.RunsAreSerial`).

## Assumptions

- `execute` of the scheduler is a function of the node and its ancestors' values that succeeds or fails; it neither dies
  nor is interrupted, and its values are not `undefined`.
- The neighbour oracle of a walk is a function of the name: each name is asked for once, so nothing is lost.
- Hashes and MACs are symbolic: equal digests come from equal inputs, and equal MACs from equal key blocks, contents and
  previous MACs. What HMAC makes of a key is modelled; the hash it uses for that is any function. The hash under the advisory lock is arbitrary and
  may collide. The fingerprint of an intent is injective on intents.
- The clocks of the replicas run evenly with the one their Redis timestamps come from; a restarted replica counts as another one.
- A Redis request executes on the server at most `delta` milliseconds after its timestamp was taken (so timestamps are
  out of execution order by at most `delta`), and the expiry of the key is measured by the server.
- JavaScript strings are sequences of UTF-16 code units; a JavaScript `Map` is a map with the order of its keys.
- Timestamps, bounds and rates are mathematical integers and reals; rounding is not modelled.

## Model

| member | source | states |
|---|---|---|
| `WorkGraphs.FromNodes` | ts/src/agent/WorkGraph.ts:62-64 | the graph holds exactly the ids of the given nodes, each with the last node that carries it |
| `WorkGraphs.DanglingEdges` | ts/src/agent/WorkGraph.ts:113-123 | lists exactly the edges to absent nodes; empty if and only if there is none |
| `WorkGraphs.TopoSort` | ts/src/agent/WorkGraph.ts:133-176 | Ordered if and only if the present dependencies are acyclic, with the lexicographically least topological order; else the sorted list of exactly the nodes that reach a cycle |
| `WorkGraphs.TopoSortIsDetermined` | ts/src/agent/WorkGraph.ts:133-176 | any two answers meeting that specification for one edge relation are equal: insertion order and duplicate dependencies leave no trace |
| `WorkGraphs.KahnLoop` | ts/src/agent/WorkGraph.ts:158-167 | the queue loop ends with the greedy order from which nothing more is available |
| `Dag.GreedyIsLeast` | ts/src/agent/WorkGraph.ts:158-167 | always taking the least available node gives a topological order below every other one |
| `Dag.StuckMeansCyclic` | ts/src/agent/WorkGraph.ts:169-174 | whatever is left when nothing is available reaches a cycle |
| `Dag.ListedReachesNoCycle` | ts/src/agent/WorkGraph.ts:169-174 | and what was listed reaches none |
| `WorkGraphs.Descendants` | ts/src/agent/WorkGraph.ts:179-198 | returns exactly the nodes from which the given one is reachable along dependencies, over any number of edges |
| `WorkGraphs.NewlyBlocked` | ts/src/agent/WorkGraph.ts:256-266 | exactly the descendants that are neither done nor blocked |
| `WorkGraphs.HeldLeases` | ts/src/agent/WorkGraph.ts:214-220 | the union of the write-sets of the running nodes |
| `WorkGraphs.ReadySet` | ts/src/agent/WorkGraph.ts:235-253 | the scan's answer, sorted |
| `WorkGraphs.ReadyListIsSafeAndMaximal` | ts/src/agent/WorkGraph.ts:222-253 | the batch is eligible, free of conflicts with the running nodes and within itself, and no further eligible node could be added |
| `SchedulerRun.Admission` | ts/src/agent/Scheduler.ts:70-74 | the scheduler refuses a graph if and only if it has a dangling edge or a cycle, and names exactly the edges to absent nodes, or exactly the nodes that reach a cycle |
| `SchedulerRun.UpstreamOf` | ts/src/agent/Scheduler.ts:82-96 | the stack walk ends on every acyclic graph and collects exactly the recorded values of all strict ancestors, also where some of them have none |
| `SchedulerRun.Run.MainTurn` | ts/src/agent/Scheduler.ts:149-175 | one operation of the loop, on the cells, is the main step of the state machine |
| `SchedulerRun.Run.FiberTurn` | ts/src/agent/Scheduler.ts:98-144 | one operation of a fiber, on the cells, is its step of the state machine |
| `SchedulerRun.Run.RunToEnd` | ts/src/agent/Scheduler.ts:146-190 | whatever schedule a strategy picks, the run ends, its outcomes are the ones the graph determines, and they cover the graph if and only if the state at exit was settled |
| `SchedulerTheorems.RunsAreSafe` | ts/src/agent/Scheduler.ts:149-165 | in every reachable state: done, running and blocked disjoint; write-sets of running nodes pairwise disjoint; dependencies of running and done nodes done; at most `concurrency` running; peak within the bound |
| `SchedulerTheorems.StepKeepsInv` | ts/src/agent/Scheduler.ts:98-175 | every single operation of the loop and of every fiber keeps the invariant behind these results, although plans are made from stale snapshots |
| `SchedulerTheorems.StartedOnAncestorValues` | ts/src/agent/Scheduler.ts:82-96 | a forked node was given exactly its strict ancestors' values, and each of them is the recorded outcome |
| `SchedulerTheorems.OutcomesAreDetermined` | ts/src/agent/Scheduler.ts:98-128 | every recorded outcome is the topological one: Completed or Failed as `execute` says on the ancestors' values, Blocked by a failed strict ancestor |
| `SchedulerModel.FatesExist` | ts/src/agent/Scheduler.ts:52-60 | that topological semantics exists for every acyclic graph |
| `SchedulerModel.FatesAreUnique` | ts/src/agent/Scheduler.ts:52-60 | and is unique |
| `SchedulerTheorems.SchedulesAgree` | ts/src/agent/Scheduler.ts:149-173 | two runs, even with different concurrency, agree on every node's outcome except for whom a blocked node blames |
| `SchedulerTheorems.RunsAreBounded` | ts/src/agent/Scheduler.ts:149-175 | every schedule of n nodes ends within 15 n + 5 operations |
| `SchedulerTheorems.RunsNeverStick` | ts/src/agent/Scheduler.ts:149-175 | no operation is enabled exactly when the run is done |
| `SchedulerTheorems.LiveCoversRunning` | ts/src/agent/Scheduler.ts:160-172 | whatever runs has its fiber in `live` or is about to get one; `live` is not empty when the loop waits |
| `SchedulerTheorems.SettledIffNoFrontier` | ts/src/agent/WorkGraph.ts:269-281 | with nothing running, nothing is ready if and only if every node is done or blocked |
| `SchedulerTheorems.CompleteIffSettledAtExit` | ts/src/agent/Scheduler.ts:167-190 | a finished run reports every node if and only if the last state read before stopping was settled |
| `SchedulerTheorems.PromptRunsAreComplete` | ts/src/agent/Scheduler.ts:150-168 | with the two reads as one step, every finished run reports every node |
| `SchedulerCompleteness.CompleteIffOneBatch` | ts/src/agent/Scheduler.ts:149-173 | with at least one slot, every finished run reports every node if and only if each node is in the first planned batch or is skipped because an ancestor fails |
| `SchedulerCompleteness.SecondBatchCanBeLost` | ts/src/agent/Scheduler.ts:150-168 | for every node that needs a second batch and has no failure above it there is a finished run without an outcome for it |
| `SchedulerRace.ARunCanLoseANode` | ts/src/agent/Scheduler.ts:150-168 | a run of a two-node chain that finishes without an outcome for the second node |
| `SchedulerTheorems.ReportPartitions` | ts/src/agent/Scheduler.ts:177-189 | the three lists are sorted, without repetitions, disjoint, and together name every recorded node |
| `Traversal.Walk` | ts/src/agent/Traversal.ts:69-151 | for every oracle, score and bounds: terminates; distinct names, at most max(1, maxNodes); depths non-decreasing and at most max(0, maxDepth); each entry but the seed reached from an earlier one, one level up, along an allowed edge; entries expanded first in, first out, what is reached from one entry comes best score first, and no more of it than the branching factor; nothing that follows an expanded entry is lost; why it stopped |
| `Traversal.ExhaustedIsClosed` | ts/src/agent/Traversal.ts:59 | an exhausted walk over pages within the limit is closed under every allowed edge |
| `Traversal.WorkIsRunnable` | ts/src/agent/Traversal.ts:160-173 | the graph of a walk has no dangling edge and no cycle |
| `Traversal.WalkIsAdmitted` | ts/src/agent/Traversal.ts:153-173 | the scheduler never refuses a walk, and it can be sorted |
| `WikiDomain.ReplayLoop` | app/wiki/domain.py:426-430 | the loop computes the fold of `evolve`, stopping at the first error |
| `WikiDomain.FingerprintIsIntent` | app/wiki/domain.py:433-475 | two commands have one fingerprint if and only if the client asked for the same thing: ids, clock and scopes filled in by the server do not count |
| `WikiTrace.GrammarIsExact` | app/wiki/domain.py:151-422 | the streams that accepted commands can produce are exactly the grammatical ones |
| `WikiTrace.AcceptedIsNext` | app/wiki/domain.py:151-353 | an accepted command's event is one the grammar allows next |
| `WikiTrace.NextIsAccepted` | app/wiki/domain.py:151-353 | for every event the grammar allows next there is a command that is accepted with it |
| `WikiTrace.GrammarReplays` | app/wiki/domain.py:358-430 | a grammatical stream replays without error to the projection that shows title, content, digest, author and id of its latest revision, its length as version, the times of its first event and of its latest revision or submission, and the two statuses |
| `WikiTrace.QuarantineThenRelease` | app/wiki/domain.py:303-353 | a quarantine is followed only by a release, and a release follows only a quarantine |
| `WikiTrace.ModeratorIsNotAuthor` | app/wiki/domain.py:303-353 | no moderation event is by the author of the revision it judges |
| `WikiTrace.OneReviewPerRevision` | app/wiki/domain.py:214-262 | between two review submissions there is a revision |
| `WikiTrace.RevisionsFormAChain` | app/wiki/domain.py:184-212 | each revision names the latest earlier one as its parent: no update is lost |
| `WikiStore.InMemoryWikiStore.ExecuteCommand` | app/wiki/memory.py:42-91 | the method, step by step on its dictionaries, is the function `Execute` of the old store: new state, receipt or rejection |
| `WikiStore.InMemoryWikiStore.ResolveOutbox` | app/wiki/memory.py:193-209 | the same for the outbox |
| `WikiStore.OthersChangeNothing` | app/wiki/memory.py:45-61 | a command that is rejected or replayed changes nothing |
| `WikiInvariants.AcceptedGrows` | app/wiki/memory.py:61-91 | an accepted command appends exactly one event, numbered by the length of the stream, with its projection, slug, receipt and outbox record, and nothing else |
| `WikiRuns.OkIffFresh` | app/wiki/memory.py:54-76 | an accepted command keeps all store invariants if and only if its generated ids are new |
| `WikiRuns.AUsedPageIdIsAccepted` | app/wiki/memory.py:54-76 | after one creation the store is in order; a second one under the same page id with another slug is accepted, and the stream of that page does not replay |
| `WikiRuns.ReachableStoresAreOk` | app/wiki/memory.py:33-91 | after every history with fresh ids: projections are replays of grammatical streams numbered 1..n, slugs and pages are in bijection, receipts and events are in bijection, event ids are unique, outbox records and requests correspond, and each record tells its event, page and slug |
| `WikiRuns.PageTellsItsStream` | app/wiki/domain.py:358-430 | in such a store a page is the replay of its stream and carries its length, digest, head and statuses |
| `WikiRuns.RetryIsExactlyOnce` | app/wiki/memory.py:43-52 | a retried command id changes nothing at any later time: equal intent returns the original receipt, another intent is rejected |
| `WikiRuns.EventsMatchReceipts` | app/wiki/memory.py:83-90 | the command ids of stored events are those of the receipts, one event each |
| `WikiRuns.OneEventPerReceipt` | app/wiki/memory.py:83-90 | as many events across all streams as receipts |
| `WikiRuns.OneRecordPerRequest` | app/wiki/memory.py:77-82 | no two review or report events share an outbox record |
| `WikiSerializable.RunsAreSerial` | app/wiki/postgres.py:108-278 | however statements, commits, aborts and outbox updates interleave, the tables hold what the serial store holds after the committed commands in commit order; that store is in order and every commit was fresh |
| `WikiSerializable.AnswersAreSerial` | app/wiki/postgres.py:118-278 | a transaction's answer is the serial store's answer at that moment; `stream_conflict` never occurs; it ends on a unique violation if and only if it inserts its event and the generated ids are not new; only a commit changes the tables |
| `WikiRefinement.BrokenIffStale` | app/wiki/postgres.py:156-278 | a statement runs into a unique key if and only if it is the insertion of the event and the page id of the creation, or the event id, is in use; never at the page, the outbox or the receipt |
| `WikiRefinement.NextPlace` | app/wiki/postgres.py:156-172 | from its insertion on, `event_index` is the version read plus one, which is the length of the stream plus one |
| `WikiRefinement.CommitRefines` | app/wiki/postgres.py:156-278 | one commit puts into the tables what the serial `execute` puts into the store |
| `WikiRefinement.StatementKeepsExclusive` | app/wiki/postgres.py:112-236 | locks and unique keys keep any two open transactions apart, statement by statement |
| `WikiRefinement.CommitKeepsOthers` | app/wiki/postgres.py:112-278 | what an open transaction has read and written stays valid when another one commits |
| `WikiRefinement.ResolveRefines` | app/wiki/postgres.py:414-429 | the single UPDATE does what the in-memory `resolve_outbox` does, in every store in order |
| `WikiSerializable.NeverDeadlocked` | app/wiki/postgres.py:112-278 | while a transaction is open, some transaction can go on |
| `WikiSerializable.StatementsAdvance` | app/wiki/postgres.py:112-278 | each statement takes its transaction further, so it ends after at most eight |
| `MonitorSoundness.VerdictIsFinal` | _vendor/ooptdd/engine/monitor.py:1-27 | a verdict settled on a prefix is the outcome, the verdict and the settle point of every finite extension, for count with each operator, present, absent, must_order with and without `within_s`, heartbeat, ratio and conforms |
| `MonitorSoundness.SettledAtIsFirst` | _vendor/ooptdd/engine/monitor.py:109-126 | `settled_at` is the first event after which the verdict stands, -1 exactly for a count nothing can fail |
| `MonitorSoundness.UndecidedCountIsOpen` | _vendor/ooptdd/engine/monitor.py:141-168 | when an undecided count can still go both ways, by operator and threshold |
| `MonitorOpen.OpenIsExact` | _vendor/ooptdd/engine/monitor.py:613-645 | on a feed that may go on with any events, for every monitor: both outcomes can still come about if and only if `Open` holds of its parameters and counters; a settled monitor is never open |
| `MonitorInOrder.OpenInOrderIsExact` | _vendor/ooptdd/engine/monitor.py:3-15 | on a stream in timestamp order, for every monitor: both outcomes can still come about if and only if `OpenInOrder` holds of its parameters, its counters and the last event; otherwise the outcome is the present one on every continuation; a settled monitor is never open |
| `MonitorInOrder.AnUndecidedOrderCannotPass` | _vendor/ooptdd/engine/monitor.py:271-287 | `[a, b]` after b at 10 and c at 20 is undecided, and every continuation in order fails it |
| `MonitorInOrder.AnUndecidedHeartbeatCannotPass` | _vendor/ooptdd/engine/monitor.py:321-341 | a heartbeat without a beat is undecided after an event without a timestamp, and every continuation in order fails it |
| `MonitorOpen.AnUndecidedCountCannotFail` | _vendor/ooptdd/engine/monitor.py:154-168 | a `!= 0` count is undecided after its first match, and no extension fails it |
| `MonitorOpen.AnUndecidedCheckCannotPass` | _vendor/ooptdd/engine/monitor.py:519-546 | a conformance check without an ontology is undecided, and no stream passes it |
| `MonitorOrderOpen.OrderCanPass` | _vendor/ooptdd/engine/monitor.py:255-287 | the unknown first occurrences can be filled in so that the order and every `within_s` bound hold if and only if each pair of known ones is in order and no further apart than the steps between allow, names listed twice counted |
| `MonitorRatioOpen.RatioIsOpen` | _vendor/ooptdd/engine/monitor.py:347-381 | whether the comparison of a ratio, or its opposite, can still come to hold, from the share, the two counts and the kinds of events that may still come |
| `MonitorMatching.MatchableIsExact` | _vendor/ooptdd/engine/monitor.py:63-69 | some event that may still come matches if and only if the matcher does not contradict itself and asks for no timestamp or tie-break number before the last event |
| `MonitorMatching.OffenderIffSeparable` | _vendor/ooptdd/engine/monitor.py:211-223 | some event that may still come matches one of a list of matchers and none of the allowed ones if and only if one of them can be met and implies none of the allowed ones |
| `MonitorSoundness.RisingShrinks` | _vendor/ooptdd/engine/monitor.py:255-287 | a first occurrence that becomes known later cannot mend an inversion |
| `MonitorMeaning.PassesIffJudged` | _vendor/ooptdd/engine/monitor.py:141-381 | each check passes if and only if the stream is what the check asks for: counts, first occurrences in order and in reach, gaps between beats, no offence |
| `MonitorMeaning.TimedComeFirst` | _vendor/ooptdd/engine/monitor.py:94-100 | the sorted stream has the events with a timestamp first; the other way round holds if and only if all have one or none has |
| `MonitorMeaning.FirstIsLeast` | _vendor/ooptdd/engine/monitor.py:271-279 | on a sorted stream `must_order` takes each name's least (timestamp, seq) |
| `MonitorMeaning.BackendOrderIsForgotten` | _vendor/ooptdd/engine/monitor.py:94-100 | the outcome of a check after sorting does not depend on the order in which the backend returned the events |
| `MonitorClasses.OrderMonitor.GapsExceeded` | _vendor/ooptdd/engine/monitor.py:259-269 | lists exactly the neighbours that lie too far apart |
| `MonitorClasses.RunOn` | _vendor/ooptdd/engine/monitor.py:554-563 | driving an object of any of the seven classes over a stream and collapsing it is the fold of the model, step by step |
| `MonitorClasses.LiveMonitorSet.FeedOne` | _vendor/ooptdd/engine/monitor.py:632-637 | every monitor of the set takes exactly one step with the same index |
| `MonitorClasses.LiveMonitorSet.CollapseAll` | _vendor/ooptdd/engine/monitor.py:643-645 | one result per monitor, none passing over an unclean read |
| `MonitorClasses.RunLive` | _vendor/ooptdd/engine/monitor.py:613-645 | objects fed live, event by event, end with the states, verdicts and results that `RunOn` gives each of them alone |
| `MonitorClasses.LiveIsBatch` | _vendor/ooptdd/engine/monitor.py:613-620 | feeding live gives each monitor the outcome, verdict and settle point of the batch run |
| `Gate.DetectKind` | _vendor/ooptdd/engine/gate.py:304-326 | of the modelled keywords the first one carried decides, and the gate's table and the kernel's `compile_check` select the same check for every rule |
| `Gate.EvaluateEvents` | _vendor/ooptdd/engine/gate.py:495-684 | sort, one check per rule, and the fold into `ok` and the score, as the function `Evaluate`, for gates without the opt-in conditions named below |
| `Gate.GateIgnoresOrder` | _vendor/ooptdd/engine/gate.py:516-553 | the verdict of a gate and of each of its checks depends on which events came back, not on their order |
| `Gate.GreenMeans` | _vendor/ooptdd/engine/gate.py:600-684 | green means: clean read, at least one check that can fail counts, and the sorted stream satisfies every check that counts or, with a threshold, at least that share of their weight, which is the score |
| `Gate.IdleRulesDoNotDecide` | _vendor/ooptdd/engine/gate.py:593-618 | an optional, pending or tautological rule, put anywhere, changes neither `ok` nor the score |
| `Chain.SignChain` | _vendor/ooptdd/domain/model.py:181-198 | the loop signs each record over its content and the previous code, with the key of its place |
| `Chain.VerifyChain` | _vendor/ooptdd/domain/model.py:201-218 | intact if and only if every link and code fits; else the first record that does not, and which of the two failed |
| `Chain.AcceptedIffSigned` | _vendor/ooptdd/domain/model.py:181-218 | the accepted lists are exactly the signed ones |
| `Chain.SignedIsAccepted` | _vendor/ooptdd/domain/model.py:181-218 | signing and verifying is a round trip, for fixed and evolving keys |
| `Chain.PickedIsAcceptedIffPrefix` | _vendor/ooptdd/domain/model.py:201-205 | records of one chain, picked, dropped, repeated or reordered, are accepted if and only if they are its first ones in order |
| `Chain.LastMacDetermines` | _vendor/ooptdd/domain/model.py:160-166 | two accepted lists that end in one code are the same list |
| `Chain.EditIsFound` | _vendor/ooptdd/domain/model.py:202-205 | an edited record is reported at its index, as a bad code |
| `Chain.DeletionIsFound` | _vendor/ooptdd/domain/model.py:202-205 | a deletion before the end is reported at its index, as a bad link |
| `Chain.AcceptanceTellsTheKey` | _vendor/ooptdd/domain/model.py:160-218 | a list accepted under one key is accepted under another if and only if HMAC makes the same blocks of the two, record by record, with fixed and evolving keys |
| `Chain.ZeroAtTheEndIsLost` | _vendor/ooptdd/domain/model.py:190 | a fixed key shorter than a block and the same key with a zero byte more accept the same lists |
| `RateLimit.SlidingWindowRateLimiter.Allow` | app/ratelimit.py:41-51 | True if and only if the full history holds fewer than the limit in the closed window before, although old entries are pruned; only that key's deque changes |
| `RateLimit.AllowAll` | app/ratelimit.py:41-51 | a limiter that answers a list of requests has admitted exactly those that the full history admits |
| `RateLimit.EveryKeyIsBounded` | app/ratelimit.py:32-51 | with time that does not run backwards, every closed window of each key holds at most the limit |
| `RateLimit.KeysAreIndependent` | app/ratelimit.py:41-51 | a key's history depends on its own requests only |
| `RedisLimiter.FleetIsBounded` | app/ratelimit.py:165-187 | whatever the interleaving of pipelines, late or lost removals and lost replies, every half-open window of length W - delta holds at most the limit |
| `RedisLimiter.CallsAreBounded` | app/ratelimit.py:129-187 | all calls of the fleet that returned True, in such a window: at most the limit with `fail_closed`, else at most the limit times one more than the number of replicas |
| `RedisLimiter.BoundIsExact` | app/ratelimit.py:129-187 | for 0 <= delta < W, no smaller number bounds them in every run |
| `RedisLimiter.BoundedIffFailClosed` | app/ratelimit.py:129-146 | the fleet keeps to the limit in every run if and only if it fails closed or the limit is 0 or less |
| `RedisLimiter.ClosedBoundedIff` | app/ratelimit.py:165-187 | for 0 <= delta < W, the closed windows of length L keep to the limit in every run if and only if L is less than W - delta, or the limit is 0 or less |
| `RedisLimiter.RateLimiter.GetRedis` | app/ratelimit.py:98-127 | Redis is used if and only if it is configured, the breaker is closed, and a client is cached or answers a ping; a failed ping opens the breaker for 30 seconds |
| `RedisLimiter.RateLimiter.Allow` | app/ratelimit.py:129-146 | failing closed, True only on a count from Redis within the limit, and the in-process limiter is untouched; failing open, that limiter answers; a failure opens the breaker and drops the client, a success closes it, and without an attempt nothing changes |
| `Digest.CanonicalIffSame` | ts/src/platform/Digest.ts:3-11 | two JSON values have one canonical text if and only if they are the same value up to key order at every depth |
| `Digest.ValueParse` | ts/src/platform/Digest.ts:4-11 | the text of a value can be read back: none is a prefix of another one's, across escapes, numbers, arrays and objects |
| `Digest.EscapeParse` | ts/src/platform/Digest.ts:7-8 | string escapes, surrogate pairs and lone surrogates are uniquely readable |
| `Digest.EscapedReadsBack` | ts/src/platform/Digest.ts:7-8 | a reader of JSON strings (RFC 8259, section 7) reads every escaped string back as it was |
| `Digest.EntryOrderIsForgotten` | ts/src/platform/Digest.ts:3-7 | any order of an object's entries gives the same text |

## Left out

- HTTP routers, clients, the command line, adapters, configuration, logging and rendering: plumbing around the modelled code.
- `ts/src/agent/Loop.ts`, `app/cache.py`, `app/ontology.py`: their bounds are easy, or rest on library behaviour.
- `expand`, `leaf` and `addNode` on their own: one-line updates of the graph's map.
- SQL text, migrations and the queries that only read; foreign keys, which the committed tables always satisfy in the model.
- Decisions with several events: every accepted command decides exactly one (`WikiStore.DecidesOneEvent`), so a transaction inserts its event row in one step.
- The HTTP status codes that `WikiError` carries; the codes themselves are modelled.
- The answer of `pending_outbox`, whose ordering and filter differ between the two stores.
- Unicode normalisation, and the inside of hashes and MACs.
- The invariant, metamorphic and external checks of the gate, `pin_service`, `require_corroboration`, `require_signature`, and the diagnostic fields of check results (labels, missing names, capped offenders).
- `EventType.validate`: an event type is modelled by the set of events it finds fault with.
- Strings as timestamps, matchers on values that are neither integers nor strings, and unknown operators, all of which Python would reject or compare by its own rules.
- Timeouts and the cancellation of calls to Redis; a ping and a pipeline that fail for whatever reason are inputs of the model. `ready` and `close`.
- Changing the limiter's settings while it is in use.
- Gate.DetectKind: does not know `invariant`, `metamorphic`, `external` and registered custom keywords, whose checks are not modelled; they rank after the modelled ones.
- Gate.EvaluateEvents: does not add the `pin_service` rule nor apply `require_corroboration` and `require_signature`, which can only turn a green gate red.
- RedisLimiter.RateLimiter.Allow: one call at a time; calls that wait for one connection at once are not modelled.
- SchedulerRun.UpstreamOf: values that are `undefined`, which the source treats as missing, are not modelled.
- UUIDs: page ids are plain strings in the model of the Postgres store; that the source turns them into UUIDs first, so that two spellings can name one page, is not modelled.
- Traversal.Walk: scores are real numbers; a score that is not a number counts as a refusal in the source.
