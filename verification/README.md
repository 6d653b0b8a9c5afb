# swansong, verified

swansong coordinates graceful shutdown. A forest of nodes shares a stop signal that flows from a node
to its descendants, and guards delay the completion of every node above them. To keep guard creation
cheap, no counter is shared by all of a tree: a guard adds one to a shard near its thread, a shard that
becomes nonempty adds one to its node, and a child that becomes nonempty adds one to a shard of its
parent. Stops, arrivals, departures, flushes, child creation and collection all race.

This project models that protocol and proves what it is for, for every forest, every number of shards
and threads, and every interleaving: a guard is seen from every ancestor, completion is never reported
early and is exact when nothing is in progress, a stop reaches every descendant and every interrupt
waiting on one, no wakeup is lost, no counter underflows, every guard is in the reports of its ancestors,
and every schedule of the calls in progress comes to an end, with the destructors that they bring about;
and each call, from its start to its end, does exactly what it was called for.
The sequential data structures underneath (`Slab`, `GuardRegistry`, the packed words) are classes that are
proved to refine a map, a list of live records and a plain record; and the protocol on packed words
is proved to take the same steps as the protocol on records while its counters are in range.

## How the model reads the source

The coordination protocol lives in races between atomic operations, so it is a transition system: each
thread is a stack of frames, and one transition is one atomic load, one read-modify-write or one lock
section of one thread. `Protocol.Sys` holds the nodes, the stacks, the guards, the waiters and the nodes
that were asked to stop; `Protocol.Apply` is one transition, and `Protocol.Reachable` is any state of any
run. Memory is sequentially consistent in this part.

| in the source | in the model |
|---|---|
| `Shard::arrive`, `depart`, `flush` (`src/implementation/shard.rs`) | `RunArriveShard`, `RunDepartShard`, `RunFlush` |
| `Shard::stop`, up to its wakers | `RunLatch` |
| `Inner::arrive`, `depart` (`src/implementation/inner.rs`) | `RunArriveNode`, `RunDepartNode`, `RunNotifyZero`, `RunRelease` |
| `Inner::stop`, `Inner::new_child`, `Inner::drop` | `RunStop`, `RunNewChild`, `RunCollect` |
| `Guard::for_shard`, `Shard::arrive_if_arrived` | `RunProbe` |
| `Guard::new`, `clone`, `drop`; `Swansong::child`, `clone`, `drop`, `shut_down` | the `Start`, `Clone` and `Drop` actions |
| `ShutdownCompletion` and `ShuttingDown`, `poll` and `block` | `StepWaiter` |
| `Interrupt::poll`, `StopListener`, the wakers of `Shard::stop` | the machine of `StopListeners`, one for each shard in `Interrupts` |
| `Shard::provenance`, `Shard::guard_infos`, the records of guards | the events of `Records` |
| the `u64` words, and the `state` that a call has loaded | `PackedRuns.PackedApply` |

Strong references are ghost pins: a node can be collected only when no handle, unfreed child, waiter,
guard of a child, or call in progress refers to it (`Unpinned`). As in the source, guards of a root pin
nothing.

The proof of the protocol is one invariant, `Invariant.Inv`. Its heart is a ledger of tokens: every
counted unit is owned by a guard, by an arrived word or by a call in progress, and every change that the
protocol puts off (a flush, a release, a latch, a child's stop, a notification) is owed by a call in
progress.

| module | what it holds |
|---|---|
| `Memory`, `Protocol` | words, nodes, frames, transitions, runs |
| `Bags`, `Ledger`, `Invariant` | owned units, owed duties, the invariant |
| `MemorySteps`, `LedgerSteps`, `StackSteps`, `DutySteps`, `LifeSteps`, `WaiterSteps`, `Runs` | each part of the invariant is kept by every transition |
| `Safety`, `Obligations`, `Propagation`, `Requests`, `Census` | what holds in every reachable state, and at quiescence |
| `Histories`, `GuardCalls`, `Handles`, `Shutdowns`, `Waits` | what each call comes to, from its start to its end, over runs given by their actions |
| `Alone`, `Collections` | what can always be done, and which nodes stay alive |
| `Creation` | a child that is created after its parent has stopped is stopped |
| `Records` | the protocol with guard reports: one record for each guard |
| `Tallies`, `Termination`, `Liveness` | every schedule ends, and what it ends in |
| `RunningNodes` | a run that shows why a node's count is exact only once it has stopped |
| `StopListeners`, `Polls` | interrupts waiting for one shard's stop, with relaxed reads |
| `Interrupts` | the protocol joined with the interrupts of every shard |
| `Slabs`, `GuardRegistries`, `PackedWords` | the data structures underneath |
| `Numerals`, `PackedRecords`, `PackedRuns` | the protocol on packed words |

`docs/invariants.md` promises that `guard_count()` and `state()` are exact without guard operations in
flight (S5). `Census.QuiescentCensus` states it of the first. `state()` reads the stop bit first, and
calls an unstopped node running whatever it counts; of a stopped node `Safety.CompleteIffIdle` states
it. The count in a node's word is not exact by itself: a shard that empties stays arrived until its node
stops (`src/implementation/shard.rs:25-29`), so a running node without guards may count a shard, as in
`RunningNodes.RunningNodeStaysCounted`.

## Model

| member | source | states |
|---|---|---|
| Runs.InvStep | src/implementation/shard.rs:202-294 | every transition of every call, on any forest with any number of shards and threads, keeps the whole invariant and moves the memory forward only |
| Runs.ReachableInv | docs/invariants.md:25-34 | the invariant holds in every state of every run |
| Safety.GuardCountedAtEveryAncestor | src/implementation/shard.rs:18-23 | in every reachable state, a guard raises the count of every node from its home to its root |
| Safety.CompleteOnlyWhenIdle | docs/invariants.md:29-31 | a node that is stopped with a zero count has no guard anywhere in its subtree, whatever is in progress |
| Safety.CompleteIffIdle | src/lib.rs:231-241 | with no call in progress, a live stopped node reports completion if and only if its subtree holds no guard, also one created after the stop |
| Safety.QuiescentStopReaches | src/implementation/inner.rs:181-204 | with no call in progress, every live descendant of a stopped node is stopped, however it was created |
| Obligations.ReportedComplete | src/lib.rs:231-241 | the two separate reads of the stop bit and then of the count report completion only if the node is complete, without guards below, at the second read |
| Obligations.Conservation | src/implementation/inner.rs:208-278 | every counter equals the number of owners of its units: guards, arrived words and calls in progress |
| Obligations.CountersExact | src/implementation/shard.rs:216-294 | a shard's two counts are its guards and the children whose word names it, plus the units that calls hold; a node's count is its arrived shards plus the units that calls hold |
| Obligations.NoUnderflow | src/implementation/shard.rs:276-278 | no counter is negative, and none is zero while a call is about to subtract from it or a guard could |
| Obligations.EmptyShardFlushed | src/implementation/shard.rs:281-294 | a shard that is stopped, arrived and empty always has a call on its way to flush it |
| Obligations.EmptyChildReleased | src/implementation/inner.rs:252-278 | a child that is arrived with a zero count always has a call on its way to release it that expects exactly its present word; and it is stopped or being collected |
| Obligations.ChildNeverEscapes | src/implementation/inner.rs:86-106 | while a live child of a stopped node has not stopped, some call has yet to snapshot its shard, or holds it as work, or is still creating it |
| Creation.LateChildIsStopped | src/implementation/inner.rs:102-105 | a creation whose check found the parent stopped returns a stopped child, also when another call stopped it first |
| Creation.CreatedStopped | src/implementation/inner.rs:86-106 | over every run, a child that is created after its parent has stopped is stopped when its creation returns it |
| Obligations.SleeperNotified | src/implementation/shutdown_completion.rs:50-74 | a waiter asleep on a listener after a failed check, whose event has happened, is about to be notified by a call in progress |
| Obligations.ResolvesTruthfully | src/implementation/shutdown_completion.rs:50-74 | in every reachable state, a waiter for completion resolves only when its node is stopped and counts nothing and no guard exists below; a waiter for the stop only when its node is stopped |
| Obligations.QuiescentWaiterResolves | src/implementation/shutting_down.rs:56-80 | with no call in progress, a waiter whose event has happened is not asleep, and resolves within three of its steps |
| Waits.WaiterOver | src/implementation/shutdown_completion.rs:50-74 | over every run, a waiter keeps the node and the event that it was made for, and is gone exactly once it was dropped |
| Waits.ReadyTruthfully | src/implementation/shutdown_completion.rs:50-74 | over every run, a completion made for a node becomes ready only by a poll of its own, when that node is stopped with a zero count and no guard exists at or below it; a stop listener when the node is stopped |
| Waits.ReadyStays | docs/invariants.md:32-32 | a resolved waiter stays resolved until it is dropped |
| Waits.WaiterWoken | docs/invariants.md:44-45 | with no call in progress, once its event has happened, a waiter whose latest poll was Pending has been notified, and each that was not dropped resolves within three steps |
| Waits.PendingHasListener | src/implementation/shutting_down.rs:56-80 | over every run, a waiter between polls that was polled before holds a listener |
| Waits.NotifiedAfterStop | src/implementation/inner.rs:183-204 | no waiter is notified before its node has stopped |
| Obligations.CollectedCountsNothing | src/implementation/inner.rs:333-346 | from the start of a child's destructor its shards count no guards and no children; when it is over the child has left its parent shard and its registry |
| Obligations.DeregistersItself | src/implementation/shard.rs:329-334 | the deregistration finds the child's own entry, takes it out, and changes no other entry of any registry |
| Propagation.StopFlowsDown | src/lib.rs:403-415 | a node is stopped only if a request is on record for it or an ancestor; a shard only if its node is stopped or being collected |
| Propagation.StopBitsNeverClear | docs/invariants.md:25-25 | over every run, neither a node's nor a shard's stop bit ever clears |
| Propagation.ReleaseNeverRacesStop | src/implementation/inner.rs:252-278 | while a release expects the present word, no transition of any thread changes that word's stop bit |
| Requests.RequestsHeeded | src/lib.rs:403-415 | a root without handles has a request on record, and each node with one is stopped or has a call about to stop it |
| Requests.QuiescentStopped | src/lib.rs:217-220 | with no call in progress, a live node is stopped if and only if a request is on record for it or an ancestor |
| Shutdowns.RequestedIffAsked | src/lib.rs:403-415 | over every run from the start, the requests on record are exactly the nodes that `shut_down` was called on and the roots whose last handle was dropped |
| Shutdowns.AskedIsHeeded | src/lib.rs:217-220 | at every instant after `shut_down` on a node, root or child, or after the drop of a root's last handle, the node is stopped or a call is about to stop it |
| Shutdowns.AskReaches | src/lib.rs:217-220 | after either, every live node at or below that node is stopped at every later instant with no call in progress |
| Shutdowns.ShutDownCall | src/implementation/inner.rs:183-204 | when the call of `shut_down` ends, whatever ran beside it, the node is stopped |
| Shutdowns.StoppedWasAsked | src/lib.rs:403-415 | a node is stopped only if some earlier action of the run asked it or an ancestor: the drop of a child's last handle, or of any other handle, stops nothing |
| Shutdowns.QuiescentStoppedIffAsked | src/lib.rs:403-415 | with no call in progress, a live node is stopped if and only if some action of the run asked it or an ancestor to stop |
| GuardCalls.GuardCall | src/implementation/guard.rs:124-141 | over its whole length, a call that creates a guard makes exactly one, on the shard it chose, with its last step |
| GuardCalls.ProbeCall | src/implementation/guard.rs:143-157 | over its whole length, an interrupt's call for a guard makes exactly one on a shard of its node, or none; none only if the node was not alive at the last step, and for a root only after its shard was found unarrived |
| GuardCalls.GuardsCounted | src/implementation/guard.rs:160-193 | over every run from the start, the guards on a shard are those that calls made and the clones, less one for each drop |
| Handles.HandlesCounted | src/implementation/inner.rs:172-179 | over every run from the start, the handles of a node are the one its creation returned and one for each clone, less one for each drop |
| Handles.ChildCall | src/implementation/inner.rs:86-106 | over its whole length, a call that creates a child makes exactly one node, and ends with a live child of the parent, with one shard, registered on the chosen shard, whose first and only handle it returns |
| Handles.RootMade | src/implementation/inner.rs:81-84 | a new root is running, empty and alive, with as many shards as asked for and one handle |
| Alone.CallAlone | src/implementation/shard.rs:216-247 | a call that begins in any reachable state and runs alone comes to its end, whatever calls other threads have left unfinished |
| Alone.GuardCanBeMade | src/implementation/guard.rs:124-141 | whoever holds a handle can make a guard without a step of another thread, also on a stopped node |
| Alone.ChildCanBeMade | src/lib.rs:383-387 | whoever holds a handle can make a child without a step of another thread |
| Alone.NodeCanBeStopped | src/lib.rs:217-220 | whoever holds a handle can stop the node without a step of another thread |
| Alone.ProbeCanRun | src/implementation/guard.rs:143-157 | an interrupt can ask for a guard in every reachable state, without a step of another thread, also once its node is gone |
| Alone.HoldersCanAct | src/implementation/guard.rs:160-193 | in every reachable state each guard can be cloned and dropped, and each waiter polled |
| Collections.LiveIffReferenced | src/implementation/guard.rs:108-116 | once nothing is left to do, a node is alive if and only if a handle, a waiter or a child's guard refers to it or to a node below it |
| Termination.EveryScheduleEnds | src/implementation/shard.rs:216-247 | if no new call begins and weak exchanges do not fail spuriously, every schedule of the calls in progress, with the destructors that start on the way, reaches a state with none in progress |
| Termination.WorkSmaller | src/implementation/inner.rs:208-248 | every step of a call in progress, and every start of a destructor, makes a measure smaller that is taken node by node from the leaves to the root |
| Termination.NeverStuck | src/implementation/inner.rs:181-278 | every call in progress can take its next step |
| Termination.EveryScheduleSettles | src/implementation/inner.rs:329-346 | a schedule that goes on while there is anything left to do reaches a state with no call in progress and no node left to collect |
| Termination.WorkRemains | src/implementation/inner.rs:181-278 | short of such a state, some call in progress or some destructor can always take a step |
| Liveness.EventualCompletion | docs/invariants.md:44-45 | every schedule, destructors included, reaches a quiescent state in which each completion of an idle stopped node, and each stop listener of a stopped one, resolves within three steps |
| RunningNodes.RunningNodeStaysCounted | src/implementation/shard.rs:25-29 | a reachable quiescent state in which a running node without guards has a count of one |
| Census.QuiescentCensus | src/implementation/inner.rs:290-298 | with no call in progress, the recursive sum over shards and live children is the number of guards homed in the subtree |
| Census.VisitsEachChildOnce | src/implementation/inner.rs:281-286 | evaluated on one reachable state, the traversal of a node visits each registered live child exactly once and nothing else |
| Census.TraversalVisitsOnce | src/implementation/inner.rs:281-286 | over any run in which the traversal reads each shard at an instant of its own, it visits a child once if the child is live and registered when its own shard is read, and otherwise not at all |
| Records.EventKeepsRecords | src/implementation/guard.rs:129-193 | every transition, registration, record drop and report keeps one record for each counted guard, on the registry of that guard's shard |
| Records.EventRecords | src/implementation/shard.rs:297-313 | the registrations add exactly one live record, known at its shard, a record's drop ends exactly one, and nothing else makes or ends any |
| Records.RecordsGoOn | src/implementation/guard.rs:129-193 | records hold nothing back: every action of the protocol can be taken with records kept, if need be after one registration |
| Records.ReportSeesLive | src/implementation/shard.rs:347-351 | in every state that occurs, a report on a shard sees each live record registered there once, and no other |
| Records.RecordsCensus | src/implementation/inner.rs:300-309 | with no call in progress and no record in the making or on its way out, the records that `guard_infos_subtree` collects are those of the guards homed in the subtree, each once, and as many as `guard_count_subtree` counts |
| MemorySteps.MemoryStep | src/implementation/inner.rs:181-278 | every transition keeps the words well formed, stop bits set, unstopped shards arrived, and links and ended lives unchanged |
| LedgerSteps.BalancedStep | src/implementation/shard.rs:216-294 | every transition changes each counter by as much as the owners of its units change |
| StackSteps.StacksStep | src/implementation/shard.rs:219-246 | every transition keeps what each frame knows, that callers wait for their callees, and that each node in use is alive or collected by that very stack |
| StackSteps.DepartNodePush | src/implementation/inner.rs:252-262 | a departure that empties a node finds it stopped or being collected, and leaves a release that expects an arrived word |
| DutySteps.DutiesStep | src/implementation/inner.rs:181-204 | every transition keeps every flush, release, latch, stop, registration and collection owed by some call until it is made |
| DutySteps.ReleaseOnlyStopped | src/implementation/inner.rs:252-278 | a child is arrived and empty only if it is stopped or being collected |
| DutySteps.SnapshotFinds | src/implementation/shard.rs:338-345 | a stop's snapshot of a shard contains every registered live child of it that has not stopped |
| LifeSteps.LivesStep | src/implementation/inner.rs:86-106 | every transition keeps each registry exact, and each node alive while a handle, a child, a waiter or a child's guard needs it |
| LifeSteps.CollectedNodeEmpty | src/implementation/inner.rs:333-346 | a child whose destructor ends has empty stopped shards and an empty word |
| LifeSteps.DeregisteredKeeps | src/implementation/shard.rs:329-334 | removing a listed child's key unlists that child and no other |
| WaiterSteps.WaitersStep | src/implementation/inner.rs:145-149 | every transition keeps each sleeping waiter whose event has happened due for a notification |
| StopListeners.InvStep | src/implementation/shard.rs:202-212 | every interleaving of polls, registrations, drops and stops of one shard keeps every registered waker stored, taken or woken |
| StopListeners.PendingIsCovered | src/implementation/shard.rs:417-445 | a listener whose latest poll returned Pending has its waker stored under its own key, or taken by a stop, or has been woken; once the stops are done it has been woken |
| StopListeners.WokenPollEnds | src/implementation/interrupt/future.rs:11-22 | the first poll that begins after the wake reports the interruption, however its relaxed reads fall |
| Polls.PollAnswers | src/implementation/interrupt/future.rs:11-22 | over a whole poll, on a shard that is unstopped at its end, the answer is the future's output exactly if the future was ready, and otherwise Pending with the polling task's waker registered; it is an interruption only on a stopped shard, and an output touches no registration |
| Polls.FinishedWasReady | src/implementation/interrupt/future.rs:18-21 | a step after which an interrupt newly yields an output was the check of its own poll, with the future ready |
| Polls.PollShrinks | src/implementation/interrupt/future.rs:11-22 | a poll can always take its next step, and ends after two steps at most |
| Polls.ListenerMade | src/implementation/shard.rs:403-409 | a new interrupt is unregistered and has not been polled |
| Interrupts.EventStep | src/implementation/shard.rs:202-212 | every transition of the protocol, and every step of the interrupts and stops of every shard, keeps the two in agreement: a shard's wakers are taken once for each latch of its word |
| Interrupts.EventProjects | src/implementation/shard.rs:202-212 | seen from the protocol an event is one of its actions or nothing; what an interrupt of a shard does is a step of that shard's machine, and no other shard moves |
| Interrupts.ShardReachable | src/implementation/shard.rs:202-212 | each shard of the joined machine is in a state that its own machine reaches, so that every result about interrupts of one shard holds of all |
| Interrupts.PendingIsWoken | docs/invariants.md:38-40 | with no call in progress, each interrupt on any shard of a collected node, or of a live node with a stopped node at or above it, whose latest poll was Pending has been woken since, and its next poll reports the interruption however its relaxed reads fall |
| Interrupts.InterruptedOnlyWhenStopped | docs/invariants.md:26-28 | an interrupt reports an interruption only if its node is stopped or being collected |
| Interrupts.ServeGoesOn | src/implementation/shard.rs:202-212 | a call that is stopping a shard can always go on with the shard's wakers |
| StopListeners.KeysNeverAlias | src/implementation/shard.rs:431-445 | before the drain each registered key holds its listener's own waker and keys differ; after it the slab stays empty, so that a stale key removes nothing |
| StopListeners.DropStep | src/implementation/shard.rs:457-466 | dropping a listener takes its own waker out of the waiters, and no other |
| StopListeners.WakersAreRegistered | src/implementation/shard.rs:417-466 | no waker is left behind: a key is in the waiters exactly if it is that of a registered listener, and after the drain none is |
| StopListeners.StopListener.PollStopped | src/implementation/shard.rs:417-445 | the poll answers with the stop bit; without a stop it keeps its registration for the same waker, and otherwise replaces it under a vacant key |
| StopListeners.StopListener.Drop | src/implementation/shard.rs:457-466 | the drop removes the registered key if it is present |
| StopListeners.Shard.Stop | src/implementation/shard.rs:202-208 | the stop latches the shard and takes each registered waker, leaving an empty slab |
| Slabs.InsertRefines | src/implementation/shard.rs:498-510 | insertion adds the value under an absent key, keeps the free list intact, and adds a slot only when all are occupied |
| Slabs.RemoveRefines | src/implementation/shard.rs:512-524 | removal takes out exactly that key, keeps the free list intact, and changes nothing if the key is absent |
| Slabs.SlotsArePeak | src/implementation/shard.rs:468-475 | after any operations the number of slots is the most values ever held at once |
| Slabs.ValuesOnce | src/implementation/shard.rs:526-538 | the traversal yields each value once for each key that holds it |
| Slabs.Slab.Insert | src/implementation/shard.rs:498-510 | the in-place insertion is the specified one |
| Slabs.Slab.Remove | src/implementation/shard.rs:512-524 | the in-place removal is the specified one, and returns what was under the key |
| Slabs.Slab.AllValues | src/implementation/shard.rs:526-531 | the loop over the slots yields the occupied values in the order of their keys |
| Slabs.Slab.Drain | src/implementation/shard.rs:533-538 | taking the slab yields all values and leaves it as new |
| GuardRegistries.NoLiveRecordDropped | src/implementation/guard.rs:69-83 | after any registrations, drops and reads, a report sees exactly the live records among all ever registered, in order |
| GuardRegistries.SweepingIsAmortized | src/implementation/guard.rs:66-79 | the registry is never longer than 16 or twice the live count at its last sweep; the sweeps of `register` scan at most two entries per registration, with reads interleaved |
| GuardRegistries.GuardRegistry.Register | src/implementation/guard.rs:69-74 | registration keeps every live record in order and adds the new one at the end, grows the registry by at most one, and leaves it within its limit |
| GuardRegistries.RegisterKeepsLive | src/implementation/guard.rs:69-74 | whether or not it sweeps, registration appends to the live records and keeps the length within twice the live count at the last sweep, or 16 |
| GuardRegistries.GuardRegistry.Report | src/implementation/shard.rs:347-351 | a report returns the live records in order, and leaves the registry swept |
| GuardRegistries.GuardRegistry.Sweep | src/implementation/guard.rs:76-79 | the sweep keeps the live records in order, and sets the threshold to twice their number |
| GuardRegistries.GuardRegistry.LiveRecords | src/implementation/guard.rs:81-83 | the loop collects the records that are still live, in order |
| PackedWords.AddLocal | src/implementation/shard.rs:46-57 | adding a guard to a word changes the guard count alone, if and only if it is below 2^32 - 1 |
| PackedWords.AddKid | src/implementation/shard.rs:46-57 | adding a child changes the child count alone, if and only if it is below 2^30 - 1 |
| PackedWords.SubtractLocal | src/implementation/shard.rs:276-278 | subtracting a guard changes the guard count alone, if and only if there is one |
| PackedWords.SubtractKid | src/implementation/shard.rs:276-278 | subtracting a child changes the child count alone, if and only if there is one |
| PackedWords.ShardWordsCompare | src/implementation/shard.rs:224-234 | exchanges compare whole records |
| PackedWords.ComparedWords | src/implementation/shard.rs:202-212 | the constants that a departure, a stop and a flush compare with are the empty, arrived, stopped record and its flushed form |
| PackedWords.FirstArrival | src/implementation/shard.rs:219-230 | the word that a first arrival writes is the arrived record with that unit alone |
| PackedWords.CountShard | src/implementation/inner.rs:239-247 | counting a shard changes the node's count alone, below 2^32 - 1 |
| PackedWords.UncountShard | src/implementation/inner.rs:252-256 | uncounting a shard changes the node's count alone, if it is not zero |
| PackedWords.StopNode | src/implementation/inner.rs:184-188 | stopping a node changes its stop bit alone |
| PackedWords.NodeWordsCompare | src/implementation/inner.rs:266-278 | exchanges on a node's word compare whole records, while its reserved bits are clear |
| PackedWords.ArrivalStoresHome | src/implementation/inner.rs:214-227 | the word that a child's arrival writes is the arrived record with that parent shard and one counted shard |
| PackedWords.ReleaseClears | src/implementation/inner.rs:266-270 | the word that a release writes is the empty record with the same stop bit |
| PackedWords.HomeSurvives | src/implementation/inner.rs:271-273 | the parent shard that a departure reads is the one that the arrival stored, whatever counting and stopping came between |
| PackedWords.ShardIndexInRange | src/implementation/inner.rs:156-158 | a thread index masked by a power of two less one is a valid shard index |
| PackedWords.ShardState.FetchAdd | src/implementation/shard.rs:268-271 | the atomic addition acts on one field of the record |
| PackedWords.ShardState.FetchSub | src/implementation/shard.rs:276-278 | the atomic subtraction acts on one field of the record |
| PackedWords.ShardState.FetchOrStopped | src/implementation/shard.rs:202-203 | the atomic or sets the stop bit alone, and returns the record from before |
| PackedWords.ShardState.CompareExchange | src/implementation/shard.rs:281-294 | the exchange succeeds exactly when the records are equal |
| PackedRecords.TestsAgree | src/implementation/shard.rs:209-209 | the tests that calls make on bits (flushable, stopped, without counted shards) are those that the protocol makes on records |
| PackedRuns.PackedStep | src/implementation/shard.rs:216-294 | every transition that keeps the counters in the ranges of their fields does the same to the packed words, and to the words that calls have loaded, as to the records |
| PackedRuns.RunsRefine | src/implementation/shard.rs:46-57 | in every run whose counters stay in range, every packed word of every node and shard stands for the protocol's record of it, units held in flight included |
| PackedRuns.RunsPack | src/implementation/inner.rs:26-32 | every run whose counters stay in range is a run on packed words |

## Left out

- Weak memory: the protocol is interleaved with sequential consistency. Only `StopListeners` lets a relaxed read of the stop bit miss a stop, unless the shard's lock or a delivered wake orders it.
- A counter that leaves the range of its field: `PackedRuns.RunsRefine` says that a run on packed words is one of the protocol while guards on one shard stay below 2^32, children below 2^30, and shards of one node at most 2^16. Beyond that nothing is stated. In that refinement the packed machine makes every exchange and every addition on bits, and takes its branches with the protocol; `PackedRecords.TestsAgree` says that the branches agree.
- The protocol is modelled on values, not as classes, because other threads run between any two of its steps; the classes model what is sequential.
- `event-listener`, executors, real wakers and blocking waits are listener flags and woken flags.
- `Arc` and `Weak` are ghost pins. A destructor that would run inside another call runs on a thread of its own, at any time after the last reference is gone; `Termination` counts it as part of the work.
- Thread-local indices and available parallelism: a call may use any shard in range. Children have one shard, roots any positive number.
- A child's key is stored in the same transition that registers it; its only reader is the child's destructor, which cannot run before `new_child` returns.
- Weak reads inside a stop: in `Interrupts` the word and the wakers of a shard's stop are separate steps of one call, in the source's order, and only the interrupts' own reads are relaxed.
- Trees without guard reports: `Records` models a tree that keeps them; on any other, guards record nothing and `Protocol` alone applies.
- Spurious failures of weak exchanges are transitions of the model, but `Termination.EveryScheduleEnds` excludes them: a schedule could otherwise consist of nothing else.
- `AsyncRead`, `AsyncWrite`, `Iterator`, `Stream` and `Guarded` wrappers, the text of guard reports, locations, times and logging: each is a forward call, a one-branch check or a diagnostic.
- `src/implementation/stop/iterator.rs` is not part of the crate's module tree, and not part of this model.
