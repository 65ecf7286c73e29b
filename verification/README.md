# Verification of logos-libp2p-module

This project models the parts of the module whose correctness does not show from reading one
function, and proves what the module's comments, documentation and tests promise of them.

**The life of a node** (`Lifecycle*.dfy`). API callers, the creators of a node, the thread that reaps a
late context, the event listeners, the destructor and the binding's own callbacks run as one state
machine, one lock operation, null check, submit, reply, timeout, swap, destruction or deletion at a
time. A run is any sequence of actions; an action that is not possible where it stands changes
nothing. What each thread can rely on where it stands is proved to survive every step of every other
thread, and from that follow memory safety, the fate of every context, promise and event, and the
absence of deadlock. `LifecycleEnds` says from where, and why, each thread of any run returned;
`LifecycleCreates` and `LifecycleScripts` say, from every reachable state, what whole calls, creates,
events, late replies and the teardown come to, with the complete state they leave.

**The queues** (`TopicQueues`, `TopicRuns`, `TopicPrefix`, `TopicReplay`, `StreamQueues`, `StreamRuns`, `Wakeups`). The two queue
classes keep a ghost history of their operations; each method is proved against the state that the
history leads to, and what whole runs keep is proved of histories. `TopicPrefix` and `TopicReplay` say exactly when
what a topic takes is a prefix of what it is offered. `Wakeups` puts the mutex and the condition variable around both
queues. Under the mutex a thread first looks and then acts on what it saw without looking again, so that what it saw
still being so is proved, from mutual exclusion; on that rest the proofs that the concurrent calls are linearizable,
results included, and that no wakeup is lost.

**Multiaddress admission** (`Segments`, `Ip4`, `Numerals`, `Ip6`, `Ip6Forms`, `Ip6Texts`, `Multiaddr`,
`AddressFaults`, `AddrFilter`). The parsers
are loops over buffers, proved against declarative readings of the text; the verdict is proved against
a declarative judgement of the address's components; the textual forms of section 2.2 of RFC 4291 are
defined on their own and compared with what the parser accepts. `Numerals` and `Ip6Texts` start from the
numbers and write them out, with leading zeros and letters of either case, from tables of digits of their
own; what is written reads back as the numbers, and nothing else is accepted.

**Base64** (`Digits`, `Base64`, `Base64Texts`). The encoding is specified as section 4 of RFC 4648 has it, as one number
cut into six-bit groups; encoder and decoder are proved against that relation, which is one to one and
holds of the test vectors of section 10.

## What is taken from the callers and from the binding

The Nim library is behind a C binding that is not part of this model. Its contract, and that of the
callers, is what `Lifecycle` builds into the conditions of its actions:

- A submit that returns zero fires its reply at most once, later. One that returns non-zero has fired the
  reply before it returns, without a context, or never fires it.
- Only the reply to a create carries a context, and always a new one.
- A destruction that reports success has waited out the listeners of its context and starts no more; one that
  reports failure promises nothing.
- The destructor runs once and beside no create; no create begins after it. No call into the module is under
  way when its memory goes, and none begins later. Calls beside the destructor are allowed.
- Registering a listener does not block. User event handlers run under the gate lock; they do not create or destroy a
  node and make no call that awaits a reply or waits for a queue. The model ends a listener at its push or its release, so
  what it says of waits and locks rests on this.

Time is left to chance: a timeout may come whenever a thread waits. Readers of a shared lock may be kept
waiting by a writer that waits, which is what the wait graph assumes; the steps themselves also allow
readers to overtake.

## Where the code and its comments differ

- `src/topic_queues.h:16` promises a coherent prefix. Two kinds of run break it. Under the byte bound a later, smaller
  message can be accepted after a refusal (`TopicRuns.SmallerPayloadOvertakes`). And under either bound a pop makes room
  after a refusal, whatever the sizes (`TopicReplay.PopReopens`).
  For a topic that nothing pops meanwhile, `TopicPrefix.AcceptedIsPrefix` has the exact condition on the backlog, the
  bounds and the sizes: some first `n` payloads fit together and none of the others fits with them. It holds when the byte
  bound has room for as many of the largest payload as the message bound lets in (`TopicPrefix.RoomForTheLargest`), and
  when sizes never shrink (`TopicPrefix.GrowingSizes`).
  For a topic that is drained meanwhile, `TopicReplay.NoneAfterRefusal` has the exact condition on the backlog, the bounds
  and the schedule: for some `n`, replaying the schedule with just the first `n` offers let in, each offer fits the
  backlog it meets exactly when it is one of them. This is stated by the places of the offers, since equal payloads may
  stand at several.
- `parseIp6` accepts more than RFC 4291: a colon at the end, `:::`, and a dotted group that is not last.
  `Ip6Forms.FormIffAcceptedAndStandard` says exactly which accepted literals are standard; `TrailingColonIsAccepted`,
  `TripleColonIsAccepted` and `InnerQuadIsAccepted` give the three families.
- `remove` deletes exactly the handle with an id iff at most one is queued (`StreamRuns.RemovalIsExact`); two pushes of one
  id make it depend on the table's order (`StreamRuns.RepeatedIdDependsOnOrder`).

## Model

| member | source | states |
|---|---|---|
| LifecycleTheorems.NothingFreedIsTouched | src/plugin.cpp:199-307 | in every state of every run, whatever a thread dereferences, frees or overwrites next is there and fit for it: the module for every call inside and every listener past the owner check until it leaves, emitting included, the gate for every running listener, the context under every submit, the promise under every submit and reclaim |
| LifecycleTheorems.BindingTouchesNothingFreed | src/plugin.h:109-114 | a promise that the binding has yet to resolve is not deleted and has no value; one it has resolved and not deleted is still there |
| LifecycleTheorems.PromisesAreDeletedOnce | src/plugin.h:411-454 | over the sync, static, async and create paths a promise is deleted once at most, and has been deleted unless its reply is to come, the callback is about to delete it, or a thread is about to submit or reclaim it |
| LifecycleTheorems.EveryContextIsInOnePlace | src/plugin.cpp:173-256 | a context is somewhere iff the binding handed it out, and then in exactly one place: an unread reply, one thread's local variable, the member, or passed to the destructor, there once at most |
| LifecycleTheorems.UnreadContextHasReader | src/plugin.cpp:187-191 | a context in an unread reply always has its reader: the creator awaiting it or the thread left behind by a timeout |
| LifecycleTheorems.LateContextIsReaped | src/plugin.cpp:47-55 | a context that arrives after the create timed out is passed to the destructor by the next two steps of the thread left behind, and the member is untouched |
| LifecycleTheorems.AdoptionOverwritesNothing | src/plugin.cpp:215-219 | concurrent creates never overwrite a context or a gate: whenever a context can be adopted both members are null |
| LifecycleTheorems.DoomedContextIsInNoSubmit | src/plugin.h:394-410 | while any thread is inside a destruction, a submit under way runs on another context, one never passed to destruction, and the destruction is not the destructor's |
| LifecycleTheorems.DetachWaitsOutListeners | src/plugin.cpp:268-283 | once the owner is cleared no listener is past its owner check, not even one that only has its event to emit, and no gate has an owner, for the rest of the run |
| LifecycleTheorems.GateGoesAfterSuccess | src/plugin.cpp:291-298 | a gate whose memory is gone had a listener of a context whose destruction reported success, has listeners of no other kind of context, and no running listener holds it |
| LifecycleTheorems.SuccessFreesTheGate | src/plugin.cpp:294-298 | after a successful destruction the next step leaves no gate alive; after a failed one every gate stays, and all were alive before |
| LifecycleTheorems.TeardownLeavesNoContext | src/plugin.cpp:285-301 | once the destruction has returned, each context ever handed out was passed to its destructor or is on its way there with a thread left behind by a timed-out create |
| LifecycleTheorems.EventsEndInOneWay | src/callbacks.cpp:159-201 | an event that found its module ends in exactly one of queued or release submitted when it is a stream, queued or dropped when a message; one that found no owner did neither |
| LifecycleTheorems.ListenerHasContext | src/callbacks.cpp:159-201 | a listener past the owner check has, until it leaves, a live module, a live gate and a non-null context that was never passed to destruction |
| LifecycleTheorems.ReleaseIsNeverSkipped | src/plugin.h:445-454 | the null-context return of the release that a refused stream needs is never possible, and the promise for its submit can always be made |
| LifecycleTheorems.LedgerIsIssued | src/callbacks.cpp:70-74 | the contexts accounted for are exactly those that create replies handed out in the run |
| LifecycleEnds.HowCreatorsEnd | src/plugin.cpp:199-256 | in every run a thread that began as a creator and has returned did so from one of five places: the look that found a context, the settling of a refused submit, the timeout of its wait, a reply without a context, or the registration of the second listener, which leaves the context the member, its gate owned and both listeners on it |
| LifecycleEnds.HowCallersEnd | src/plugin.h:393-441 | in every run a caller that has returned found no context, settled a refused submit, gave up waiting, or took its reply |
| LifecycleEnds.HowListenersSaw | src/callbacks.cpp:159-201 | what a listener knows of the owner it read once, from its own gate, under the gate lock |
| LifecycleEnds.PushDecides | src/callbacks.cpp:166-178 | a listener that found its module has pushed just once, and the answer decides: what fitted is queued once, a stream that did not has its release submitted once, a message that did not is neither |
| LifecycleEnds.PushesCounted | src/callbacks.cpp:166-178 | in every state of every run an event counts as queued iff its own push was made and fitted |
| LifecycleCreates.CreationSucceeds | src/plugin.cpp:199-237 | from every reachable state in which a creator holds the create lock and the shared context lock and finds no context: once the callers beside it have returned, its own steps with a taken submit and a reply that carries `c` end with `c` the member, a fresh gate as the only one and owned, both listeners registered on it, and the promise read and deleted once |
| LifecycleCreates.NodeCanBeCreated | src/plugin.cpp:233-256 | from every reachable state that has a live module with no context, no destructor and the create lock free, some run of a new creator ends with a node |
| LifecycleCreates.SecondCreateChangesNothing | src/plugin.cpp:233-240 | on a module that has its context a create looks, returns, and leaves all that is shared as it was |
| LifecycleCreates.OnlyCallersBeside | src/plugin.cpp:228-237 | beside a creator that finds no context nobody is at the context lock but callers about to return |
| LifecycleScripts.CallReturns | src/plugin.h:393-441 | a call with a context, or a static one, whose submit is taken returns with its reply: the whole state is as before but for one promise, read and deleted once |
| LifecycleScripts.RefusedCallReclaims | src/plugin.h:424-437 | a call or a create whose submit is refused, with its reply fired or never, ends with its promise deleted just once and nothing else changed |
| LifecycleScripts.LateReplyIsDropped | src/plugin.h:109-134 | a call that gives up waiting returns, and the reply that comes later still deletes the promise, once |
| LifecycleScripts.LateCreateIsReaped | src/plugin.cpp:173-191 | a create that times out returns; when its reply comes with a context, the thread left behind takes it and passes it to its destructor, and the member stays what it was |
| LifecycleScripts.EventIsQueued | src/callbacks.cpp:159-179 | an event that finds the owner and room in the queue ends queued, and nothing else changes |
| LifecycleScripts.StreamIsReleased | src/callbacks.cpp:159-169 | a stream that finds the owner and no room ends with its release submitted on the context, and is not queued |
| LifecycleScripts.LateEventIsIgnored | src/callbacks.cpp:159-164 | an event whose gate has no owner ends at once and changes nothing |
| LifecycleScripts.TeardownCompletes | src/plugin.cpp:268-307 | from every reachable state in which the other threads have returned, the destructor of a module with a context and a gate ends with both members null, the context passed to its destructor once more than before, no gate owned, and the gate freed iff the destruction reported success |
| LifecycleWaits.NoWaitCycle | src/plugin.cpp:199-301 | in no state of any run do threads wait in a circle of any length over create lock, gate, context lock, queue mutex, replies and destructions |
| LifecycleWaits.SomebodyMoves | src/plugin.h:303-304 | from every unfinished thread a chain of waits ends at a thread that can step with no timeout and no failed destruction, or at one awaiting its reply; the latter only for a thread that awaits a reply itself or wants the create lock |
| LifecycleWaits.WaitersHoldNoLock | src/plugin.h:422-438 | a thread that awaits a reply or a destruction holds neither a gate nor the context lock nor a queue |
| LifecycleWaits.LevelsRise | src/plugin.cpp:233-283 | whoever waits for a lock, a reply or a destruction waits for a thread strictly later in the order create, binding, gate, context, queue |
| LifecycleWaits.MovesOrWaits | src/plugin.cpp:173-307 | every unfinished thread can step, or awaits a reply, or waits for a named other thread |
| LifecycleRuns.InvAlways | src/plugin.cpp:173-307 | the invariants of locks, promises, contexts, gates and events hold in every state of every run |
| LifecycleLocks.ExclusiveStep | src/plugin.h:303-305 | no step of any thread brings two threads to where a mutex or the unique side of a shared lock excludes them |
| LifecyclePromises.PromisedStep | src/plugin.h:109-134 | every step keeps: one reader a promise, values and deletions as its phase says, and someone at each promise that still needs a submit, a reclaim or a reader for its context |
| LifecycleContexts.LedgeredStep | src/plugin.cpp:199-256 | every step moves a context from one place to one other or not at all |
| LifecycleContexts.DoomedStep | src/plugin.cpp:291-292 | a thread is inside the destruction only of a context that was passed to it |
| LifecycleGates.GuardedStep | src/plugin.cpp:268-301 | no step of any thread breaks what another relies on of the context, the gate, the owner, the listeners and the module's memory |
| LifecycleGates.AssignGuarded | src/plugin.cpp:215-216 | adopting keeps what all other threads rely on, and finds no context and no gate |
| LifecycleGates.ClearOwnerGuarded | src/plugin.cpp:273-274 | clearing the owner under the gate's unique lock disturbs no listener past its check |
| LifecycleGates.SwapGuarded | src/plugin.cpp:281-286 | nulling the context under the unique lock disturbs no submit |
| LifecycleGates.DropGateGuarded | src/plugin.cpp:294-298 | deleting the gate after a success leaves every gate that a running listener holds |
| LifecycleGates.ListedStep | src/plugin.cpp:218-223 | every step keeps: each gate has a registered listener, unless its creator is about to register the first |
| LifecycleEvents.AccountedStep | src/callbacks.cpp:159-201 | every step keeps the counts of what became of each event |
| Wakeups.FaithfulStep | src/stream_queues.cpp:22-33 | given mutual exclusion, no step of any thread changes what another thread saw when it looked and has yet to act on: its operation stays possible and would return just that |
| Wakeups.NoLostWakeup | src/stream_queues.cpp:7-34 | in every state of every run, with any step in between a check and the wait or the pop that follows it, if the queue of an unsignalled waiter holds anything, some push to it stands between its store and its notify |
| Wakeups.TopicPopTakesItsFront | src/topic_queues.cpp:38-45 | a pop that is past its check and about to take its front finds its queue non-empty and the payload it saw still in front |
| Wakeups.StreamPopTakesItsFront | src/stream_queues.cpp:27-33 | the same of a caller about to take a handle |
| Wakeups.WakeupComes | src/stream_queues.cpp:17-18 | that push needs no lock: after its next step or two the waiter is off the condition variable |
| Wakeups.QuietMeansEmpty | src/topic_queues.cpp:32-40 | when no push is under way every waiter's queue is empty |
| Wakeups.HolderMoves | src/topic_queues.cpp:13-46 | the mutex has one holder at most, and the holder always has a step to take, before its check and after it |
| Wakeups.Linearizable | src/topic_queues.cpp:7-61 | the operations performed form a history the queue allows; each belongs to one call, falls between that call's beginning and its return, and the call returns exactly what the queue returns at that point, payload or handle included |
| Wakeups.TopicPopReceives | src/topic_queues.cpp:41-45 | a concurrent pop that returns a payload gets the one that comes next in what its topic hands out over the whole history, by the position of its operation |
| Wakeups.StreamPopReceives | src/stream_queues.cpp:30-33 | the same of the handles that concurrent callers accept from a protocol |
| Wakeups.LaterCallsComeLater | src/stream_queues.cpp:7-55 | a call that has not begun performs its operation after all those performed so far |
| Wakeups.FailedPopFoundNothing | src/stream_queues.cpp:21-29 | a pop that returned empty-handed found its queue empty at a check under the lock, during its call |
| Wakeups.OnlyPushFills | src/topic_queues.cpp:13-61 | of all operations only a push that succeeds makes an empty queue hold something |
| Wakeups.CallReturns | src/topic_queues.cpp:13-61 | with the mutex free a waiting call can finish by its own steps, performs exactly its operation, and returns what the queue returns at that point |
| Wakeups.EmptyPopWaits | src/stream_queues.cpp:21-29 | a pop that finds its queue empty with time left waits on the condition variable and takes nothing |
| TopicQueues.Queues.SetBoundsTo | src/topic_queues.cpp:7-11 | the stored topics and bounds are those of the history with this operation |
| TopicQueues.Queues.Offer | src/topic_queues.cpp:13-30 | true iff the payload fits both bounds in unbounded arithmetic and neither bound is zero; the state is that of the history with the push |
| TopicQueues.Queues.Take | src/topic_queues.cpp:41-45 | hands out the oldest payload, or nothing from an empty topic; the byte count stays the exact sum |
| TopicQueues.Queues.Forget | src/topic_queues.cpp:48-54 | frees one topic, and keeps its entry only for a drop count |
| TopicQueues.Queues.ForgetAll | src/topic_queues.cpp:56-61 | frees every topic in whatever order the table is walked, erasing while iterating |
| TopicQueues.Queues.Samples | src/topic_queues.cpp:63-70 | one sample for each topic held, with its depth and its drop count, and no other |
| TopicQueues.ByteCheck | src/topic_queues.cpp:19-21 | on 64-bit words the subtracting check says that the unbounded sum exceeds the bound, also after bounds were lowered, and an addition that passes it does not wrap |
| TopicQueues.SubExact | src/topic_queues.cpp:44 | a pop's subtraction from an exact byte count does not wrap |
| TopicQueues.SweepStep | src/topic_queues.cpp:58-60 | one turn of the sweep retires one topic and leaves the others to come |
| TopicRuns.FirstInFirstOut | src/topic_queues.cpp:13-46 | over any run, what a topic accepted since its last release is what it handed out since, then what waits, in order |
| TopicRuns.HandedInOrder | src/topic_queues.cpp:13-46 | over any run, pops included, what a topic handed out and then what waits is a subsequence of what was offered |
| TopicReplay.NoneAfterRefusal | src/topic_queues.h:12-16 | from any history, while the topic is popped at will and whatever happens to others, no offer is accepted after a refused one iff for some `n` each offer fits the backlog it meets, in the replay that lets in just the first `n`, exactly when it is one of them |
| TopicReplay.SteadyIsPrefix | src/topic_queues.h:12-16 | and then what came out and what waits is what was there before, followed by the first `n` offers |
| TopicReplay.RunIsReplay | src/topic_queues.cpp:13-46 | a run that accepts just its first `n` offers leaves the backlog of that replay, and what came out and waits is what went in |
| TopicReplay.PopReopens | src/topic_queues.cpp:22-44 | for all payloads that fit: a pop reopens a full queue, so the third offer is accepted after the second was refused, though sizes alone would promise a prefix; by value it shows iff the two differ |
| TopicPrefix.AcceptedIsPrefix | src/topic_queues.cpp:13-30 | from any backlog, while nothing pops, releases or rebounds the topic and whatever happens to others, the payloads accepted are a prefix of those offered iff a bound is zero or some first `n` fit together and none of the others fits with them |
| TopicPrefix.BatchIsPrefix | src/topic_queues.cpp:13-30 | the same of a batch pushed with nothing in between, for any history before it |
| TopicPrefix.BacklogIsPrefix | src/topic_queues.cpp:7-30 | with the bounds set once and nothing popped, a topic's whole backlog is a prefix of all it was offered iff that condition holds of the offers |
| TopicPrefix.TookIsPrefix | src/topic_queues.cpp:19-29 | the equivalence on sizes alone: what the bounds let in of a batch is a prefix of it iff the condition holds |
| TopicPrefix.RoomForTheLargest | src/topic_queues.h:14-16 | the condition holds of every batch when the byte bound has room for as many payloads of the largest size as the message bound lets in |
| TopicPrefix.GrowingSizes | src/topic_queues.cpp:19-25 | the condition holds of every batch whose sizes never shrink |
| TopicPrefix.BacklogGrows | src/topic_queues.cpp:13-30 | while a topic is undisturbed its backlog grows by exactly what the bounds let in of what it is offered |
| TopicRuns.DropsAreExact | src/topic_queues.cpp:22-25 | the drop count of a topic, 0 if absent, is the number of pushes a bound refused since construction; offered is accepted plus dropped plus offered while disabled |
| TopicRuns.DropsNeverDecrease | src/topic_queues.h:27-29 | a drop count survives releases, erasure and re-creation |
| TopicRuns.ReleaseForgets | src/topic_queues.h:35-37 | after a release a topic is held iff it ever dropped a message |
| TopicRuns.HeldExactly | src/topic_queues.cpp:13-61 | after any run a topic is held iff it ever dropped a message or accepted one since it was last released |
| TopicRuns.InitialBounds | src/topic_queues.h:55-56 | before the first operation the bounds are 1024 messages and 4 MiB, and no topic is held |
| TopicRuns.DisabledChangesNothing | src/topic_queues.cpp:15-16 | a push is turned away as disabled, and changes nothing at all, iff a bound is zero |
| TopicRuns.AcceptedPushFits | src/topic_queues.cpp:19-29 | a push succeeds iff neither bound is zero and the topic with the payload at its end is within both |
| TopicRuns.PushFits | src/topic_queues.cpp:13-30 | after any run, with bounds above zero, a push is accepted and put at the end iff one more message and its bytes are within both; otherwise it is dropped and the queue is unchanged |
| TopicRuns.FillsToTheBounds | src/topic_queues.h:55-56 | a fresh instance that nothing pops keeps just the first messages of one size that 1024 places and 4 MiB have room for, in order, and counts the others as dropped |
| TopicRuns.BoundsKept | src/topic_queues.cpp:13-61 | a topic within the bounds stays within them under every operation that leaves the bounds alone |
| TopicRuns.ConstantBounds | src/topic_queues.h:21-22 | with the bounds set once every reachable state is within them |
| TopicRuns.LoweredBoundsTrimNothing | src/topic_queues.cpp:7-11 | over any run that keeps a topic over its bounds, however they move, the topic takes nothing in and only loses messages from its front; moving bounds alone changes no entry |
| TopicRuns.SmallerPayloadOvertakes | src/topic_queues.cpp:19-25 | the witness that the condition can fail: three pushes whose backlog is no prefix of what was offered |
| TopicRuns.OtherTopicsUntouched | src/topic_queues.cpp:13-54 | any run of operations on one topic leaves the bounds and the table of all other topics as they were |
| StreamQueues.Queues.Offer | src/stream_queues.cpp:7-19 | true iff the protocol's queue is below the cap, which `StreamRuns.PushBelowCap` has by number; the state is that of the history with the push |
| StreamQueues.Queues.Take | src/stream_queues.cpp:30-33 | hands out the oldest handle, or nothing |
| StreamQueues.Queues.Drop | src/stream_queues.cpp:36-47 | removes the first handle with the id from some protocol that holds one, or nothing when none does, for any order of the table |
| StreamQueues.Queues.Clear | src/stream_queues.cpp:49-55 | drops every queued handle and every entry without a drop count |
| StreamRuns.Conserved | src/stream_queues.cpp:7-55 | over any run, the handles a protocol accepted are, counted, those popped, removed, cleared and still queued |
| StreamRuns.PoppedInOrder | src/stream_queues.cpp:21-47 | what was popped and then what waits is a subsequence of what was accepted: removals keep the order of the others |
| StreamRuns.CapAndDrops | src/stream_queues.h:20-25 | no queue exceeds 1024; the drop count is the number of pushes the cap refused, and every offer is accepted or refused |
| StreamRuns.PushBelowCap | src/stream_queues.cpp:7-19 | after any run a push is admitted, and the handle put at the end, iff the queue of its protocol then holds fewer than 1024 handles; otherwise it is refused and the queue is unchanged |
| StreamRuns.FillsToTheCap | src/stream_queues.cpp:7-19 | any number of pushes to one protocol leave its first 1024 handles in order, and count the others as dropped |
| StreamRuns.HeldExactly | src/stream_queues.cpp:7-55 | after any run a protocol has an entry iff it ever refused a handle or accepted one since the last release of all; a release empties it |
| StreamRuns.RemovalIsExact | src/stream_queues.cpp:36-47 | every iteration order leaves exactly the handles with another id, in their order, iff at most one queued handle has the id |
| StreamRuns.RepeatedIdDependsOnOrder | src/stream_queues.cpp:36-47 | two pushes of one id to two protocols: both removals are allowed, and each leaves the other handle |
| StreamRuns.RemovalReports | src/stream_queues.h:29-30 | a removal succeeds iff some queued handle has the id |
| StreamRuns.IdsStayDistinct | src/stream_queues.cpp:7-55 | while no id is pushed twice no id is queued twice, in any protocols |
| StreamRuns.RemovalOverRuns | src/stream_queues.cpp:36-47 | after any run that pushes no id twice a removal is exact and reports whether the id was queued |
| Segments.SplitSegments | src/addr_filter.cpp:13-25 | the loop yields the non-empty pieces between slashes, in order |
| Segments.SegsAppend | src/addr_filter.cpp:15-25 | the segments of two texts joined by a slash are those of the one, then those of the other |
| Segments.SegsOfPath | src/addr_filter.cpp:13-25 | writing segments out and splitting again gives them back |
| Fields.JoinSplit | src/addr_filter.cpp:15-25 | joining what was split at a separator gives the text back |
| Fields.SplitAppend | src/addr_filter.cpp:15-25 | splitting at a separator in the middle splits both sides |
| Ip4.ParseU8 | src/addr_filter.cpp:27-37 | accepts iff the text is one to three decimal digits of value at most 255, and yields that value, which `Numerals.WrittenReads` and `DecimalPlaces` give by its digits |
| Ip4.ParseIp4 | src/addr_filter.cpp:39-55 | accepts iff the text is exactly four such octets between dots, and yields their values; no slice leaves the text |
| Ip4.QuadOfParts | src/addr_filter.cpp:41-55 | any four octets joined by dots are a quad of just their values |
| Numerals.DecimalPlaces | src/addr_filter.cpp:29-35 | the value of one, two and three digits by their places, and of no digits |
| Numerals.WrittenReads | src/addr_filter.cpp:27-37 | every number below 1000, written in one to three digits with leading zeros or without, is read as itself, and is an octet iff it is at most 255 |
| Numerals.OctetsAreWritten | src/addr_filter.cpp:27-37 | the octets are just the texts so written of the numbers up to 255 |
| Numerals.DottedReads | src/addr_filter.cpp:39-55 | any four numbers up to 255, so written and joined by dots, are a quad of just these numbers |
| Numerals.QuadsAreDotted | src/addr_filter.cpp:39-55 | every quad is four numbers so written |
| Ip6.ParseHex16 | src/addr_filter.cpp:57-70 | accepts iff the text is one to four hexadecimal digits in either case, and yields their value, which `Numerals.HexDigits` and `SpelledReads` give by tables of digits |
| Numerals.HexDigits | src/addr_filter.cpp:61-66 | the digits are the sixteen characters of two tables, upper case and lower, and stand for their positions there |
| Numerals.SpelledReads | src/addr_filter.cpp:57-70 | one to four digits in any mixture of cases are a group, worth what their places say |
| Numerals.GroupsAreSpelled | src/addr_filter.cpp:57-70 | the groups are just the texts of one to four such digits |
| Numerals.QuadIsTwoGroups | src/addr_filter.cpp:103-108 | a dotted quad stands for the same two words as the two hexadecimal groups of its four bytes |
| Ip6.ReadGroup | src/addr_filter.cpp:96-114 | appends one word for a group and two for a dotted quad when the eight-word buffer has room, else refuses; writes stay in bounds |
| Ip6.FillGap | src/addr_filter.cpp:123-127 | the words before the gap, zeros, and the words after it at the end |
| Ip6.ParseIp6 | src/addr_filter.cpp:72-128 | the loop over both buffers accepts and yields exactly what the recursive reading of the literal does, on every input |
| Ip6Forms.FormsAreRead | src/addr_filter.cpp:72-128 | every form of section 2.2 of RFC 4291, full or with one run elided anywhere, with or without a dotted tail and a scope id, is accepted and read as the address it denotes |
| Ip6Forms.AddressHasForms | src/addr_filter.cpp:72-74 | every address has a full form and an elided form for each of its non-empty runs of zero words, so all are read alike |
| Ip6Texts.CaseIsIrrelevant | src/addr_filter.cpp:61-66 | every literal, accepted or not, is read just as its upper-cased and its lower-cased text |
| Ip6Texts.SameButCaseReadsAlike | src/addr_filter.cpp:72-128 | so are any two literals that differ in the case of letters only |
| Ip6Texts.AnyFullRendering | src/addr_filter.cpp:72-128 | eight words, each written in one to four digits of either case, are read as these words |
| Ip6Texts.AnyElidedRendering | src/addr_filter.cpp:84-128 | the same with any run of zero words elided |
| Ip6Texts.AnyDottedRendering | src/addr_filter.cpp:103-128 | the same with the last two words written as a dotted quad after the gap |
| Ip6Texts.AnyFullDottedRendering | src/addr_filter.cpp:103-128 | six words and a dotted quad are read as the eight words |
| Ip6Texts.EightWords | src/addr_filter.cpp:96-122 | pieces joined by colons are accepted iff each is a group or a quad and they come to eight words |
| Ip6Texts.AtMostSevenWords | src/addr_filter.cpp:84-128 | pieces around one gap are accepted iff each is a group or a quad and they leave room for at least one zero word |
| Ip6Forms.FormsAreStandard | src/addr_filter.cpp:84-116 | no standard form ends in a lone colon, has `:::`, or a dotted piece before the end |
| Ip6Forms.FormIffAcceptedAndStandard | src/addr_filter.cpp:72-128 | for every literal, scoped or not: the part before the scope id is a standard form iff the literal is accepted and that part has no lone colon at its end, no `:::` and no dotted piece before the end; the whole literal is one iff it has no scope id besides |
| Ip6Forms.TrailingColonIsAccepted | src/addr_filter.cpp:91-95 | a colon after any full form is accepted as the same address and is no form |
| Ip6Forms.TripleColonIsAccepted | src/addr_filter.cpp:85-95 | a third colon in the gap of any elided form is accepted as the same address and is no form |
| Ip6Forms.InnerQuadIsAccepted | src/addr_filter.cpp:103-108 | dotted quads are accepted at any place among groups and read in place; the literal is a form iff none but the last piece is one |
| Multiaddr.IsZeroPort | src/addr_filter.cpp:130-136 | true iff the text is a non-empty run of zeros |
| Multiaddr.Inspect | src/addr_filter.cpp:180-199 | the fault of one protocol and value, and whether it is a loopback host |
| Multiaddr.Classify | src/addr_filter.cpp:170-204 | the loop's verdict is the declarative one on the paired components: the first hard fault, else loopback anywhere when that is a fault |
| Multiaddr.OneVerdict | src/addr_filter.cpp:170-204 | the declarative judgement admits one verdict |
| Multiaddr.ComponentsAppend | src/addr_filter.cpp:174-178 | after complete components the walk starts afresh |
| Multiaddr.VerdictOfConcatenation | src/addr_filter.cpp:170-204 | when the walk of `a` ends on a complete component the verdict on `a/b` is the first hard fault of `a` then of `b`, else loopback of either |
| Multiaddr.PeerSuffixKeepsVerdict | src/addr_filter.cpp:138-146 | appending a peer id, with or without a relay hop, never changes the verdict, whatever the address before it |
| Multiaddr.QuadsByValue | src/addr_filter.cpp:180-184 | wherever a dotted quad stands in an address, with or without a rest after it, it counts by its four numbers alone: the verdict is the combination of what precedes it, its own value and what follows |
| Multiaddr.FormsByValue | src/addr_filter.cpp:185-194 | wherever a form of an IPv6 address stands, scoped or not, with or without a rest after it, it counts by its eight words alone, unspecified and loopback as sections 2.5.2 and 2.5.3 of RFC 4291 have them |
| Multiaddr.QuadWithPort | src/addr_filter.cpp:180-199 | a quad and a port alone: wildcard, then port 0, then loopback, from the four numbers and the port |
| Multiaddr.FormWithPort | src/addr_filter.cpp:185-199 | the same of a form of an IPv6 address and a port |
| AddressFaults.ZeroDigitsAreZero | src/addr_filter.cpp:130-136 | a zero port is a port of decimal digits whose value is 0 |
| AddressFaults.PortsByValue | src/addr_filter.cpp:195-199 | a port of any of the three transports is at fault iff it is a decimal number of value 0 |
| AddressFaults.UnreadableHostIsLeft | src/addr_filter.cpp:180-194 | a host that is no address is no fault |
| AddressFaults.OnlyHostsAndPorts | src/addr_filter.cpp:180-199 | no protocol but the two host and three transport words can make an address faulty |
| AddressFaults.ValueIsSkipped | src/addr_filter.cpp:138-146 | just the fifteen protocol words swallow the segment after them, seen from the verdict: behind any other word `tcp/0` is a port 0 |
| AddrFilter.Filter | src/addr_filter.cpp:215-231 | the loop keeps the addresses that pass and notes the others, each in order |
| AddrFilter.DroppedSummary | src/addr_filter.cpp:206-213 | the text is the entries joined by comma and space iff no empty entry comes before another |
| AddrFilter.SummaryReadsBack | src/addr_filter.h:81-82 | the summary of a filter is always its notes joined by comma and space, and splitting it gives the notes back when no address has a comma |
| AddrFilter.FilterPartitions | src/addr_filter.h:85-86 | kept and dropped interleave back to the input, each in order; all kept pass and no dropped one does |
| AddrFilter.FilterIdempotent | src/addr_filter.h:85-94 | filtering again changes nothing and drops nothing, and publish screening after dial screening is publish screening alone |
| AddrFilter.PublishableIsDialable | src/addr_filter.h:55-73 | what can be published can be dialled; the two verdicts differ only in loopback |
| AddrFilter.ScreenDial | src/plugin.h:168-190 | dial screening, wherever loopback may be published or not: whatever it answers, `AcceptedHoldsThePassing` and `RefusalNamesEach` hold of the answer with loopback allowed |
| AddrFilter.ScreenPublish | src/plugin.h:192-213 | publish screening: the same with loopback allowed as the build says |
| AddrFilter.ScreenNeverEmpties | src/plugin.h:168-213 | a screen refuses iff something was supplied and nothing of it passes; an accepted list is empty iff the input was |
| AddrFilter.AcceptedHoldsThePassing | src/plugin.h:188-213 | an accepted list holds the passing addresses, each as often as it was supplied and in order, so that it interleaves with the others to the input; when all pass it is the input |
| AddrFilter.RefusalNamesEach | src/plugin.h:178-208 | the text of a refusal is, for each address supplied and in order, the address with the words for its own fault, joined by comma and space |
| Base64.Encode | src/utils.cpp:6-29 | the text is the base64 text of the data: its bits as one number, in as few six-bit groups as hold them, zero-padded, spelled and filled up with `=` |
| Base64.Decode | src/utils.cpp:31-76 | accepts iff some data has this text and yields that data, so it inverts the encoder and accepts only its texts; a refusal names the first character at fault, or the last bits when none is |
| Base64.BuildLookup | src/utils.cpp:32-39 | every octet's position in the alphabet, -1 for all others |
| Base64.OneText | src/utils.cpp:6-29 | data has one text |
| Base64.OneMeaning | src/utils.cpp:72-74 | a text is that of one piece of data, the canonical form of section 3.5 of RFC 4648 |
| Base64.WrapKeepsLowBits | src/utils.cpp:65-72 | what wraps out of the 32-bit accumulator reaches neither the byte taken from it nor the low bits checked at the end |
| Base64.ReadSextet | src/utils.cpp:65-70 | one turn on the wrapping accumulator yields the bytes of the unbounded bit string |
| Base64.BlockSextets | src/utils.cpp:12-27 | three more bytes are four more groups, two are three with two zero bits, one is two with four |
| Base64.NonCanonicalEnd | src/utils.cpp:72-74 | no data has a text whose left-over bits are not zero |
| Base64.AlphabetAt | src/utils.cpp:7-8 | the alphabet by position: upper case, lower case, digits, `+`, `/` |
| Base64Texts.FirstVectors | src/utils.cpp:6-29 | the texts of no, one, two and three octets of section 10 of RFC 4648 |
| Base64Texts.MoreVectors | src/utils.cpp:6-29 | the texts of four, five and six octets there |
| Base64Texts.FourLetters | src/utils.cpp:12-16 | three more bytes are spelled by four more letters, by value of their bits |
| Base64Texts.FaultsAreNamed | src/utils.cpp:41-74 | which refusal the first character that is no letter causes, by what it is and where it stands; without one it is the last bits |

## Left out

- The lifecycle as a class: `Lifecycle` models the shared fields as a value that the steps of many threads change, since a Dafny method runs alone; which field each step writes is stated by its action.
- Event handlers and `emitEventSafe`: a leaf lock taken after the queue push, and user code behind it.
- `ok` and `status`: shared sections around the context pointer that change nothing. `status` also reads `m_initError`, which no lock it takes guards; `createContext` writes that string under the create lock only. The string is not part of the model.
- `stop` and `streamRelease` as whole calls: each is a submit and then a queue operation, both modelled; between the two of `streamRelease` an accept may still hand out the id.
- `newPrivateKey` submits to the static context under the context check; it is a caller like the others here.
- Exceptions from allocation, and the scrubbing allocator.
- Bitwise `|` of bit fields that do not overlap is modelled as addition, shifts and masks as multiplication, division and remainder; the 32-bit wrap of the decoder's accumulator is modelled.
- Drop counters are unbounded; their 64-bit wrap is not modelled.
- Wall-clock time, `awaitTimeoutFor` and its overflow near the largest timeout.
- The series that `metrics` builds from its samples, the stream queues' `metrics`, and the log lines of the screens.
- `hexEncode` and `decodeHex`: the same round trip as base64 without its difficulties.
- Configuration, the bridge's argument parsing, Kademlia, the peerstore, GossipSub calls, custom handlers and service discovery: straight-line calls through `callSync`; `createXpr` forwards an empty list when the announced set is empty.
- The Nim library: its streams, its transports and its threads are behind the contract above.
