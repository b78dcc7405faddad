# Verified model of the remote build system

The repository runs cargo on a shared build server: a client-side shim decides where a build runs, a job server
queues and starts jobs within a slot limit, a wire layer carries frames and base64 output between them, an object store
of build artefacts is garbage collected and kept fresh by touches, and a setup tool edits configuration files. This
project models the logic of those parts in Dafny and proves what holds of every input, every run or every reachable state.

| file | part of the system |
|---|---|
| `Scheduling.dfy` | the scheduler: `running` counter and priority queue |
| `SlotProtocol.dfy`, `SlotSafety.dfy`, `SlotTheorems.dfy`, `SlotCauses.dfy`, `SlotWaiting.dfy`, `SlotProgress.dfy` | connections, supervisors, the poller and the wake loops as one transition system; its invariant; the theorems; where the events a client is told come from; the fate of a waiting connection; that a pending release can be brought about |
| `WakeLoop.dfy` | `wake`, `job_finished` and `poll` as code, run without interference |
| `ObjectKeys.dfy`, `Planner.dfy`, `GarbageCollection.dfy`, `EvictionOrder.dfy`, `StoreGc.dfy` | object keys, the eviction plan, what it promises, which groups go first as listing and index tell it, and executing the plan on a store |
| `Touch.dfy` | the copy, copy back, delete protocol, interleaved with other touches and collections |
| `Segments.dfy`, `Framing.dfy`, `Base64.dfy` | cutting at a terminator; the frame decoder and its readers; the base64 codec |
| `TextLines.dfy`, `Trimming.dfy`, `LineDiff.dfy`, `Credentials.dfy`, `CredentialLaws.dfy`, `ShellQuote.dfy` | the text algorithms of setup |
| `Backends.dfy`, `Submission.dfy`, `Shim.dfy` | backend selection, one submission, and the whole run of the shim |
| `Options.dfy`, `Octets.dfy`, `JobEvents.dfy` | shared types: optional values, bytes, job events and exit statuses |

How the parts are modelled:

- The slot protocol is a transition system in which each lock acquisition, channel operation or socket write is one
  step, for any number of connections. The free memory seen at a step is a parameter of that step.
- Code that updates state is a class or a method with loops, proved against functions on values; the laws are lemmas
  about those functions.
- The shim's hooks are arbitrary functions of everything that happened before the call, so a statement about `Run` is a
  statement about all hook behaviours. A submission reads an arbitrary finite script of messages and interrupts.
- Integers are unbounded; where the source's width matters (`Planner` remainder, watermark formula) the absence of
  underflow or overflow is proved.

Results that differ from what one might expect of the code:

- **Lost wake-up.** Admission and the registration of the waiter are two lock acquisitions. If the job is popped and its
  slot refunded in between, the connection waits with nothing left to release it (`SlotWaiting.LostWakeUp`).
  `SlotWaiting.FateSettledAtRegistration` says exactly when: a release is still to come if and only if, when the waiter
  was registered, the id was still queued or a wake loop was still about to look for it. With at least one slot,
  a connection for which a release is to come can be released by some continuation, and no other can
  (`SlotProgress.ReleasableExactly`).
- **Key routes.** The planner drops whatever stands before the first `v3/` behind a path separator, so it takes a key for a
  store key behind any path components without a marker (`ObjectKeys.PlannerParseExact`), not only behind the store's
  prefix. On a key it agrees with the prefix-aware parser if and only if the key is not in the layout at all, or its
  head is the store's own exactly when it holds no marker (`ObjectKeys.RoutesAgreeExactly`). A prefix without `v3/` makes
  them agree on the store's own keys (`ObjectKeys.StoreKeysAgreeExactly`) but not on those of a store nested under it,
  and no prefix makes them agree throughout (`ObjectKeys.CleanPrefixNotEnough`, `ObjectKeys.NoPrefixAgreesThroughout`): a
  collection for the prefix `a` can evict keys of a store under `a/b` (`StoreGc.ForeignObjectEvicted`), which the
  comment on `parse_object_key` calls not GC-managed.
- **Base64.** The decoder accepts padding in quanta other than the last and non-zero pad bits;
  re-encoding gives the text back exactly for canonical texts (`Base64.EncodeUndoesDecodeExactly`).
- **Credentials.** The doc comment promises that other sections stay byte-for-byte. Appending a section keeps every
  byte. Replacing one keeps the bytes before it and from the next header on if and only if no copied line ends in `\r`
  before its newline and no newline has to be put behind an unterminated last line
  (`CredentialLaws.BytesKeptExactly`); a CRLF section loses a byte and an unterminated one gains one
  (`CredentialLaws.CrlfLosesAByte`, `CredentialLaws.OpenEndGainsAByte`). A second section of the same name is left in place
  and its values win on reading (`CredentialLaws.SecondSectionWins`); the written keys come back exactly when no
  later section overrides them.

## Model

| member | source | states |
|---|---|---|
| `Scheduling.Scheduler.AdmitJob` | crates/rbs-server/src/scheduler.rs:99-120 | accepts exactly when nobody queues, a slot is free and memory is above the minimum; saturates only at `queue_limit`; a queued newcomer is placed behind exactly the entries it does not outrank; new state and decision are those of the specification |
| `Scheduling.Scheduler.PollQueue` | crates/rbs-server/src/scheduler.rs:130-138 | pops as many jobs from the front as there are free slots, none when memory is at or below the minimum, and returns their ids in order |
| `Scheduling.Scheduler.FinishJob` | crates/rbs-server/src/scheduler.rs:123-126 | frees one slot, then polls |
| `Scheduling.Scheduler.Remove` | crates/rbs-server/src/scheduler.rs:141-149 | removes the first entry with the id, tells whether there was one |
| `Scheduling.Scheduler.Position` | crates/rbs-server/src/scheduler.rs:152-154 | 1-based place of the first entry with the id, zero when there is none |
| `Scheduling.Scheduler.constructor` | crates/rbs-server/src/scheduler.rs:66-74 | nothing runs, nothing is queued |
| `Scheduling.InsertionPoint` | crates/rbs-server/src/scheduler.rs:112-117 | the first entry of lower rank: everything before ranks at least as high |
| `Scheduling.RankIsOutranks` | crates/rbs-proto/src/job.rs:24-30 | the ranks order interactive before agent before background |
| `Scheduling.AheadIsPlace` | crates/rbs-server/src/scheduler.rs:112-117 | in an ordered queue the insertion point is the number of entries the newcomer does not outrank |
| `Scheduling.NothingStartsWithoutCapacity` | crates/rbs-server/src/scheduler.rs:89-96 | with memory at or below the minimum, or every slot taken, no newcomer starts and no queued job is released |
| `Scheduling.Releasable` | crates/rbs-server/src/scheduler.rs:93-96 | how many queued jobs may start: there is capacity for each of them, and for one more only if the queue is exhausted |
| `Scheduling.AdmitSound` | crates/rbs-server/src/scheduler.rs:99-120 | admission keeps the queue ordered by rank, then arrival, and within `queue_limit`, and `running` within `max_jobs` |
| `Scheduling.PollSound` | crates/rbs-server/src/scheduler.rs:130-138 | polling keeps that invariant |
| `Scheduling.RemoveSound` | crates/rbs-server/src/scheduler.rs:141-149 | withdrawal keeps that invariant |
| `Scheduling.PollRefinesPickBest` | crates/rbs-server/src/scheduler.rs:130-138 | a poll equals repeatedly picking the best of the set of queued entries, and stops only when all are out or capacity is gone |
| `Scheduling.PickBestUnique` | crates/rbs-server/src/scheduler.rs:130-138 | picking the best of a set repeatedly has one possible result |
| `Scheduling.RunSound` | crates/rbs-server/src/scheduler.rs:89-149 | after any sequence of operations the invariant holds and the queue is what arrived and has not gone |
| `Scheduling.NoOvertaking` | crates/rbs-server/src/scheduler.rs:89-149 | in any sequence of operations no job is released while an earlier one it does not outrank, or any it is outranked by, still queues, and none is directly accepted past a queued one; interactive outranks agent and background, agent outranks background |
| `Scheduling.ArrivalsInOrder` | crates/rbs-server/src/scheduler.rs:106-111 | sequence numbers follow arrival |
| `Scheduling.QueuedIdsDistinct` | crates/rbs-server/src/scheduler.rs:99-149 | distinct submitted ids give distinct queued ids |
| `SlotSafety.AdmitTracks` | crates/rbs-server/src/socket.rs:349-356 | admission keeps the slot invariant: every slot is in exactly one hand, granted once and given back at most once |
| `SlotSafety.RegisterTracks` | crates/rbs-server/src/socket.rs:355-364 | registering the waiter keeps it |
| `SlotSafety.RemoveTracks` | crates/rbs-server/src/socket.rs:432-439 | the first step of a withdrawal keeps it |
| `SlotSafety.UnregisterTracks` | crates/rbs-server/src/socket.rs:432-439 | the second step keeps it |
| `SlotSafety.ReturnTracks` | crates/rbs-server/src/socket.rs:123-128 | giving a slot back from a connection keeps it, and there was one to give back |
| `SlotSafety.SuperviseFinishTracks` | crates/rbs-server/src/socket.rs:142-167 | a supervisor's finish keeps it |
| `SlotSafety.TickTracks` | crates/rbs-server/src/socket.rs:131-138 | a tick of the poller keeps it |
| `SlotSafety.DeliverTracks` | crates/rbs-server/src/socket.rs:103-114 | delivering under the waiters lock keeps it |
| `SlotSafety.ReturnOrphanTracks` | crates/rbs-server/src/socket.rs:115-118 | refunding an orphan keeps it |
| `SlotSafety.LocalTracks` | crates/rbs-server/src/runner.rs:339-394 | steps inside one connection, supervisor or pump keep it |
| `SlotSafety.StepTracks` | crates/rbs-server/src/socket.rs:103-498 | every step of every task keeps it |
| `SlotTheorems.SlotConservation` | crates/rbs-server/src/socket.rs:103-167 | in every reachable state `running` is the number of slot holders and at most `max_jobs` |
| `SlotTheorems.FinishNeverClamps` | crates/rbs-server/src/scheduler.rs:123-126 | `saturating_sub` never clamps; the slot given up was held and not given back before |
| `SlotTheorems.SlotGivenBackOnce` | crates/rbs-server/src/socket.rs:103-167 | a slot is granted and given back at most once, and given back exactly when granted and in nobody's hands |
| `SlotTheorems.WithdrawalSettlesSlot` | crates/rbs-server/src/socket.rs:432-439 | after any interleaving of a withdrawal the slot is given back as often as it was granted, or is an orphan in a wake loop about to give it back |
| `SlotTheorems.NeverDroppedWhileWaiting` | crates/rbs-server/src/socket.rs:452-468 | the sender of a waiting connection is never dropped unsent |
| `SlotTheorems.OneActiveJobAlways` | crates/rbs-server/src/socket.rs:321-329 | a connection has at most one job in hand, in every run |
| `SlotTheorems.EventsFormALife` | crates/rbs-server/src/socket.rs:321-498 | the events written for a job are at every point the beginning of one life, nothing after a terminal event |
| `SlotTheorems.LifeCompletesExactly` | crates/rbs-server/src/socket.rs:321-498 | when a connection is done with a job, what it wrote is a complete life, ending in `Exited`, `Rejected` or, cancelled in the queue, `Exited(Signal(15))`, if and only if that step did not close the connection and the supervisor did not crash |
| `SlotTheorems.LogIsFinal` | crates/rbs-server/src/socket.rs:321-498 | nothing is written for a job its connection is done with |
| `SlotTheorems.DoneExactly` | crates/rbs-proto/src/job.rs:128-129 | the accepted event orders are exactly `Queued? Started Output* Exited`, `Queued? Rejected`, and `Queued Exited(Signal 15)` |
| `SlotTheorems.UnbrokenExactly` | crates/rbs-proto/src/job.rs:128-129 | an order not yet given up is exactly the beginning of an accepted one |
| `SlotTheorems.TerminalIsLast` | crates/rbs-proto/src/job.rs:173-175 | nothing follows a terminal event in an accepted order |
| `SlotCauses.ExitStatusReported` | crates/rbs-server/src/runner.rs:388-394 | after the process of a job ended with a status, every `Exited` its client is ever told carries that status |
| `SlotCauses.TerminalHasCause` | crates/rbs-server/src/socket.rs:321-498 | a terminal event after `Started` is the exit of the process with that status; one without `Started` follows the client's own cancel (`Exited(Signal(15))`) or a failed check, a full queue or a failed launch (`Rejected`) |
| `SlotCauses.CauseIsAnswered` | crates/rbs-server/src/socket.rs:321-498 | conversely, after such a cause the client is told exactly that answer and nothing else, unless the write fails |
| `SlotCauses.RelayedInOrder` | crates/rbs-server/src/socket.rs:470-498 | what a client was told of a launched job is, after `Queued`, the first of what supervisor and pumps sent, in order |
| `SlotCauses.OutputsCounted` | crates/rbs-server/src/runner.rs:339-394 | in every run a job has sent exactly as many pieces of output as its pumps passed on |
| `SlotCauses.QueuedAsSubmitted` | crates/rbs-server/src/socket.rs:330-356 | however the tasks interleave, a job queues under the priority it was submitted with, behind no job it outranks |
| `SlotWaiting.FateSettledAtRegistration` | crates/rbs-server/src/socket.rs:349-364 | a waiting connection has a release to come if and only if one was to come when it registered |
| `SlotWaiting.StepKeepsFate` | crates/rbs-server/src/socket.rs:103-120 | no step of any task changes whether a waiting connection will be released |
| `SlotWaiting.LostWakeUp` | crates/rbs-server/src/socket.rs:349-364 | a reachable idle state in which a connection waits for a release that cannot come |
| `SlotProgress.ReleaseArrives` | crates/rbs-server/src/socket.rs:103-167 | from every reachable state in which a waiting connection has a release to come, some continuation hands it over |
| `SlotProgress.ReleasableExactly` | crates/rbs-server/src/socket.rs:103-167 | with at least one slot, a waiting connection can still be released if and only if its id is queued, popped and about to be looked up, or in its mailbox |
| `WakeLoop.Shared.Deliver` | crates/rbs-server/src/socket.rs:105-114 | wakes exactly the released jobs whose waiter is registered and still listening, returns the others |
| `WakeLoop.Shared.Refund` | crates/rbs-server/src/socket.rs:115-118 | gives the orphans' slots back; what that releases is the next part of the queue |
| `WakeLoop.Shared.Wake` | crates/rbs-server/src/socket.rs:103-120 | terminates; every popped job is woken or refunded; on return the queue is empty or there is no capacity |
| `WakeLoop.Shared.JobFinished` | crates/rbs-server/src/socket.rs:123-128 | finish and wake, with the same guarantees, also when nothing was running |
| `WakeLoop.Shared.Poll` | crates/rbs-server/src/socket.rs:131-138 | poll and wake, with the same guarantees |
| `WakeLoop.AfterRound` | crates/rbs-server/src/socket.rs:103-120 | one round of the loop: what is done, in hand and popped adds up |
| `WakeLoop.WakeOutcome` | crates/rbs-server/src/socket.rs:103-120 | the outcome told without the loop: exactly the popped jobs with a listening waiter were sent their release, `running` grew by those only, no popped job keeps a waiter, and no slot is idle while memory allows and somebody queues |
| `WakeLoop.WokenExactly` | crates/rbs-server/src/socket.rs:105-114 | a released job is woken if its waiter is registered and listening, an orphan otherwise |
| `ObjectKeys.ParseExact` | crates/rbs-store/src/planner.rs:37-70 | a key parses to a value exactly when it is that value's rendering under the prefix |
| `ObjectKeys.KeySpelled` | crates/rbs-store/src/planner.rs:37-70 | the layout spelled out: `v3/packs/<crate>/<64 hex digits>.tar.zst` or `v3/manifests/<crate>/<64 hex digits>.json` behind the prefix, and nothing else |
| `ObjectKeys.ParseInjective` | crates/rbs-store/src/planner.rs:37-70 | no two keys under one prefix parse alike |
| `ObjectKeys.PlannerParseExact` | crates/rbs-store/src/planner.rs:192-192 | the planner takes a key for a store key exactly when the layout follows path components without a marker, whichever they are |
| `ObjectKeys.LaidOutOnce` | crates/rbs-store/src/planner.rs:37-70 | a key is laid out behind one head and for one object at most |
| `ObjectKeys.CleanPrefixAgrees` | crates/rbs-store/src/planner.rs:267-272 | on keys with `v3/` right behind the prefix the routes agree when the prefix has no `v3/`; the empty prefix included |
| `ObjectKeys.MarkedPrefixDisagrees` | crates/rbs-store/src/planner.rs:267-272 | when it has one, the routes disagree on every key of the store |
| `ObjectKeys.StoreKeysAgreeExactly` | crates/rbs-store/src/planner.rs:267-272 | agreement on all keys with `v3/` right behind the prefix if and only if the prefix has no `v3/` |
| `ObjectKeys.RoutesAgreeExactly` | crates/rbs-store/src/planner.rs:192-192 | for every key and prefix: agreement if and only if the key is outside the layout or its head is the store's own exactly when it has no marker |
| `ObjectKeys.NestedStoreTaken` | crates/rbs-store/src/planner.rs:35-36 | keys of a store nested under a clean prefix are left alone by the parser and taken by the planner |
| `ObjectKeys.CleanPrefixNotEnough` | crates/rbs-store/src/planner.rs:35-36 | the instance `a/b/v3/packs/...` under the prefix `a` |
| `ObjectKeys.NoPrefixAgreesThroughout` | crates/rbs-store/src/planner.rs:267-272 | under every prefix there is a key on which the routes disagree |
| `Planner.SplitListing` | crates/rbs-store/src/planner.rs:168-179 | separates junk, content and the content's size |
| `Planner.GroupObjects` | crates/rbs-store/src/planner.rs:190-201 | the loop computes the grouping by cache key |
| `Planner.Rank` | crates/rbs-store/src/planner.rs:203-245 | all candidates, in the one strict order whose meaning `EvictionOrder` states |
| `Planner.Walk` | crates/rbs-store/src/planner.rs:247-261 | the greedy walk; the unsigned remainder never underflows and remainder plus freed is the total |
| `Planner.MakePlan` | crates/rbs-store/src/planner.rs:162-263 | the whole plan, including the no-op below the cap |
| `Planner.RankedUnique` | crates/rbs-store/src/planner.rs:228-245 | a set of candidates has one ranking |
| `Planner.ChooseShortestPrefix` | crates/rbs-store/src/planner.rs:247-262 | the choice is the shortest prefix of the eligible candidates that reaches the watermark, or all of them |
| `Planner.CandidatesFit` | crates/rbs-store/src/planner.rs:190-262 | the candidates together are no larger than the listing |
| `Planner.GroupBytesBounded` | crates/rbs-store/src/planner.rs:190-201 | the groups together are no larger than the listing |
| `GarbageCollection.PlanIgnoresListingOrder` | crates/rbs-store/src/planner.rs:190-245 | with one object per kind and key and one crate name per key, permuting the listing changes nothing but the order of the junk |
| `GarbageCollection.PlanIsShortestPrefix` | crates/rbs-store/src/planner.rs:247-262 | evictions are the shortest prefix in rank order of the groups past the age cutoff that reaches the watermark, or all |
| `GarbageCollection.EvictionIsOldGroup` | crates/rbs-store/src/planner.rs:247-258 | every eviction is a whole group last used before the cutoff |
| `GarbageCollection.YoungObjectsAreKept` | crates/rbs-store/src/planner.rs:162-263 | no evicted or junked object is newer than the cutoff |
| `GarbageCollection.WatermarkExact` | crates/rbs-store/src/planner.rs:84-94 | the cap is GiB times 1073741824, the percentage at most 100, the watermark floor(cap * percent / 100), at most the cap, and u64 overflows nowhere |
| `GarbageCollection.PairsStayWhole` | crates/rbs-store/src/planner.rs:190-262 | pack and manifest of one key are evicted together or not at all |
| `GarbageCollection.GroupedPermutation` | crates/rbs-store/src/planner.rs:190-201 | grouping does not depend on order |
| `EvictionOrder.LeastUsedFirst` | crates/rbs-store/src/planner.rs:228-262 | every evicted group goes before every old group that was kept: it is incomplete and the other is not, or has fewer hits in the index, or was used earlier, or has the smaller key |
| `EvictionOrder.RecentUseProtects` | crates/rbs-store/src/planner.rs:203-262 | no evicted group was uploaded, touched or, by the index, accessed after `now - min_age` |
| `EvictionOrder.EvictionDescribed` | crates/rbs-store/src/planner.rs:190-226 | an eviction holds the pack and the manifest listed last for its key; its hits are the index's, its last use the latest of upload and access, and it is an orphan exactly when one of the two is missing |
| `EvictionOrder.StringLessExactly` | crates/rbs-store/src/planner.rs:228-245 | keys compare by their first difference |
| `EvictionOrder.UnderCapNothingGoes` | crates/rbs-store/src/planner.rs:184-188 | at or under the cap nothing is evicted |
| `EvictionOrder.SkippedYoungExactly` | crates/rbs-store/src/planner.rs:247-261 | the walk takes a beginning of the ranking, evicts its old groups, counts the objects of its young ones, and stops as soon as the watermark is reached |
| `EvictionOrder.SweptExactly` | crates/rbs-store/src/planner.rs:166-179 | junk is exactly the listed keys ending in `.touch-tmp` last modified at or before `now - min_age`; every other object is content |
| `StoreGc.ObjectStore.List` | crates/rbs-store/src/gc.rs:28-45 | the listing holds every object stored under the prefix once, sorted by key |
| `StoreGc.ObjectStore.Execute` | crates/rbs-store/src/gc.rs:72-130 | deletes exactly the planned keys and reports the plan; a dry run deletes nothing; it errs exactly when a planned key's deletion errs, having deleted only planned keys |
| `StoreGc.ObjectStore.Collect` | crates/rbs-store/src/lib.rs:145-150 | list under the prefix, plan and execute on one store |
| `StoreGc.BytesAfterPlan` | crates/rbs-store/src/gc.rs:72-101 | what remains is the total minus the freed bytes: nothing is counted twice |
| `StoreGc.ReportCountsDeletions` | crates/rbs-store/src/gc.rs:72-92 | the report counts the listed objects and exactly the keys deleted, evicted and stranded ones apart |
| `StoreGc.EvictionsApart` | crates/rbs-store/src/planner.rs:190-262 | evictions share no object |
| `StoreGc.CollectOutcome` | crates/rbs-store/src/gc.rs:72-101 | everything deleted is old, and a stranded copy or, if every listed key is unambiguous, a key of this store as the prefix-aware parser says; an over-cap store is at the watermark or has no old group left |
| `StoreGc.DeletedObject` | crates/rbs-store/src/gc.rs:72-101 | everything deleted was listed and old; one that is no intermediate is a key of this store, by the prefix-aware parser, if and only if its key is unambiguous |
| `StoreGc.ForeignObjectEvicted` | crates/rbs-store/src/planner.rs:35-36 | a run for the prefix `a` evicts an object of the store under `a/b` |
| `StoreGc.NextRun` | crates/rbs-store/src/gc.rs:28-101 | listing again finds the total less the freed bytes; at or below the watermark another run evicts nothing |
| `StoreGc.OldGroupsGone` | crates/rbs-store/src/planner.rs:247-262 | if the watermark is not reached, every old group was evicted |
| `Touch.TouchSafety` | crates/rbs-store/src/touch.rs:196-226 | over every interleaving of touches, collections, failures and crashes: copies hold the original content, a key is absent only if collected, an intermediate belongs to a touch in flight or was stranded, a touched object is fresh |
| `Touch.VanishedForGood` | crates/rbs-store/src/touch.rs:196-226 | once an object and its intermediate are gone no touch brings it back |
| `Touch.StepKeepsContent` | crates/rbs-store/src/touch.rs:196-226 | no step changes content |
| `Touch.StepLosesNothing` | crates/rbs-store/src/touch.rs:196-226 | no step but a collection removes an object |
| `Touch.StepKeepsTmpAccounted` | crates/rbs-store/src/touch.rs:196-226 | every intermediate stays accounted for |
| `Touch.StepKeepsRefreshed` | crates/rbs-store/src/touch.rs:196-226 | a finished touch leaves the object at least as recent as its copy-back |
| `Touch.PlanTouch` | crates/rbs-store/src/touch.rs:129-143 | the keys of the plain objects last modified at or before the cutoff, sorted, each as often as listed; in a listing without repeated keys an object is in it exactly if it is no intermediate and not newer than the cutoff; the number of newer plain objects |
| `Touch.EvictableIsTouched` | crates/rbs-store/src/touch.rs:129-143 | a touch that looks at least as far back as the collector touches everything the collector would evict; what it leaves out is an intermediate or newer than the cutoff |
| `Touch.TouchStore.TouchOne` | crates/rbs-store/src/touch.rs:196-226 | undisturbed, a touch changes only the object's time; what each failing call leaves, whether it took effect or not |
| `Framing.Decoder.Push` | crates/rbs-proto/src/frame.rs:47-53 | appends, or refuses when buffer and chunk exceed 16 MiB |
| `Framing.Decoder.NextFrame` | crates/rbs-proto/src/frame.rs:56-68 | takes the first non-blank line; without one the buffer becomes the unfinished line |
| `Framing.Receive` | crates/rbs-client/src/transport.rs:91-105 | for any split into reads the frames are the non-blank terminated lines of the stream; it fails only when the current partial line plus one read exceeds the limit, and ends inside a line exactly as reported |
| `Framing.FramesResume` | crates/rbs-server/src/socket.rs:210-221 | decoding resumes from the unfinished line: where the stream is split does not matter |
| `Framing.FramesByLine` | crates/rbs-proto/src/frame.rs:56-68 | a line is a frame unless it is empty or only tabs, form feeds, returns and spaces; an unterminated one is none yet |
| `Framing.EncodeFrames` | crates/rbs-proto/src/frame.rs:25-33 | documents sent one after another are exactly the frames, nothing pending |
| `Framing.TransmissionArrives` | crates/rbs-proto/src/frame.rs:25-73 | documents that leave room for one read arrive whole under every split into reads, and no read is refused |
| `Base64.Encode` | crates/rbs-proto/src/job.rs:185-208 | the chunk loop computes the encoding |
| `Base64.DecodeChunk` | crates/rbs-proto/src/job.rs:226-243 | one quantum: padding count, faults in order of position, accumulated bits |
| `Base64.Decode` | crates/rbs-proto/src/job.rs:210-252 | the decoder's loop, with each of its errors |
| `Base64.RoundTrip` | crates/rbs-proto/src/job.rs:185-252 | decoding an encoding gives the bytes back, for every byte string |
| `Base64.EncodedShape` | crates/rbs-proto/src/job.rs:185-208 | length 4 * ceil(n / 3), alphabet characters and final padding only, pad bits zero |
| `Base64.EncodedBits` | crates/rbs-proto/src/job.rs:183-208 | the characters of a chunk stand, in the alphabet of table 1 of RFC 4648, for its 24 bits, most significant first; characters past the end are '=' |
| `Base64.EncodedAppend` | crates/rbs-proto/src/job.rs:185-208 | chunks are encoded one after another |
| `Base64.DecodedBits` | crates/rbs-proto/src/job.rs:210-252 | an accepted quantum decodes to the leading bytes of the 24 bits its characters stand for, one byte less per '=' |
| `Base64.DecodedAppend` | crates/rbs-proto/src/job.rs:226-252 | quanta decode one after another up to the first fault, which is the one reported |
| `Base64.QuantumFault` | crates/rbs-proto/src/job.rs:226-243 | the fault reported for a quantum: more than two '=' at its end, else the first character out of place |
| `Base64.AlphabetExactly` | crates/rbs-proto/src/job.rs:211-220 | the characters with a value are those of the table, with its values |
| `Base64.DecodeAcceptsExactly` | crates/rbs-proto/src/job.rs:210-252 | accepted are exactly the texts of whole quanta, each alphabet characters and at most two '=' |
| `Base64.EncodeUndoesDecodeExactly` | crates/rbs-proto/src/job.rs:185-252 | re-encoding an accepted text gives it back if and only if it is canonical (sections 3.2 and 3.5 of RFC 4648) |
| `Base64.InnerPaddingAccepted` | crates/rbs-proto/src/job.rs:226-250 | `Zg==Zg==` is accepted and means the same as `ZmY=` |
| `LineDiff.FillTable` | crates/rbs-setup/src/setup.rs:119-128 | every cell of the table is the length for the remaining lines |
| `LineDiff.Walk` | crates/rbs-setup/src/setup.rs:129-143 | the walk prints the diff of what it has passed |
| `LineDiff.LineDiff` | crates/rbs-setup/src/setup.rs:115-151 | ' ' and '-' lines spell the old text, ' ' and '+' lines the new one, the ' ' lines are a common subsequence as long as any, and within a change the '-' lines come before the '+' lines |
| `LineDiff.LcsIsUpperBound` | crates/rbs-setup/src/setup.rs:119-128 | no common subsequence is longer than the table says |
| `LineDiff.DiffSpells` | crates/rbs-setup/src/setup.rs:129-150 | the walk spells both texts and keeps as many lines as the table says |
| `LineDiff.DiffRemovesFirst` | crates/rbs-setup/src/setup.rs:129-143 | no '-' line directly follows a '+' line: removing is preferred wherever it costs nothing |
| `Credentials.ProfileKeys` | crates/rbs-store/src/creds.rs:41-66 | the reader's loop computes the specification of reading a profile |
| `Credentials.WithProfile` | crates/rbs-setup/src/setup.rs:155-193 | the editor writes the lines before, the section, and the lines from the next header on |
| `Credentials.EditedParts` | crates/rbs-setup/src/setup.rs:166-192 | appended after a blank line when the header is absent, in place of the old section otherwise |
| `Credentials.EditedText` | crates/rbs-setup/src/setup.rs:155-192 | the section reads `[profile]`, `aws_access_key_id = ...`, `aws_secret_access_key = ...`, one line each, between the lines kept before and after |
| `Trimming.TrimExactly` | crates/rbs-store/src/creds.rs:46-58 | trimming removes white space at both ends, all of it and nothing else |
| `CredentialLaws.WriteThenRead` | crates/rbs-setup/src/setup.rs:155-193 | the edited profile reads as the written keys, trimmed, under what later sections of that name set |
| `CredentialLaws.WrittenKeysComeBackExactly` | crates/rbs-store/src/creds.rs:41-66 | the written keys come back if and only if no later section of the name sets another value |
| `CredentialLaws.SingleSectionRoundTrip` | crates/rbs-setup/src/setup.rs:155-193 | with at most one such header the written keys come back |
| `CredentialLaws.SecondSectionWins` | crates/rbs-setup/src/setup.rs:166-183 | a file with the header twice reads back the second section's value |
| `CredentialLaws.OtherProfilesReadTheSame` | crates/rbs-setup/src/setup.rs:155-193 | every other profile reads the same before and after |
| `CredentialLaws.IdempotentExactly` | crates/rbs-setup/src/setup.rs:155-193 | editing twice changes nothing if and only if no copied line ends in '\r' |
| `CredentialLaws.IdempotentWithoutReturns` | crates/rbs-setup/src/setup.rs:155-193 | in particular for text without '\r' |
| `CredentialLaws.SecondEditDropsReturn` | crates/rbs-setup/src/setup.rs:166-192 | editing a CRLF text twice differs from editing it once |
| `CredentialLaws.BytesKeptExactly` | crates/rbs-setup/src/setup.rs:153-154 | replacing keeps the text before the section and from the next header on if and only if no copied line loses a '\r' and no newline is put behind an unterminated last line |
| `CredentialLaws.OffsetStartsLine` | crates/rbs-setup/src/setup.rs:165-183 | the offsets used there are where the lines start |
| `CredentialLaws.AppendKeepsBytes` | crates/rbs-setup/src/setup.rs:166-176 | appending keeps every byte |
| `CredentialLaws.CrlfLosesAByte` | crates/rbs-setup/src/setup.rs:182-192 | another section with CRLF lines loses a byte |
| `CredentialLaws.OpenEndGainsAByte` | crates/rbs-setup/src/setup.rs:182-192 | another section without a final newline gains a byte |
| `ShellQuote.QuoteReadsBack` | crates/rbs-setup/src/bootstrap.rs:231-233 | a POSIX shell reads a quoted string as that string, in any context |
| `ShellQuote.QuotedWordsReadBack` | crates/rbs-setup/src/bootstrap.rs:228-233 | any list of words, quoted and joined with spaces, reads back as that list |
| `ShellQuote.LoginShellReadsBack` | crates/rbs-setup/src/bootstrap.rs:243-250 | the remote words are read as `bash`, `-lc` and the command as one word |
| `Backends.Select` | crates/rbs-client/src/backend.rs:135-158 | the chain holds the usable backends the mode considers, in order of preference; the others are skipped, in order, each for the first thing in its way |
| `Backends.AutoEndsInPlain` | crates/rbs-client/src/backend.rs:120-134 | an auto chain is never empty and ends in plain |
| `Backends.ForcedChain` | crates/rbs-client/src/backend.rs:120-134 | a forced mode's chain is its own backend or empty |
| `Backends.ChainUnique` | crates/rbs-client/src/backend.rs:120-158 | the table determines the chain |
| `Backends.ChainIsTable` | crates/rbs-client/src/backend.rs:120-158 | the decision table: auto is remote if usable, local if usable, then plain; a forced mode is its own backend or nothing |
| `Submission.Submit` | crates/rbs-client/src/shim.rs:444-516 | output is relayed in order, the interrupt forwarded, and the loop stops exactly at the first exit, rejection, end of stream or unsendable message, with the outcome that message means |
| `Submission.SubmissionDiscipline` | crates/rbs-client/src/shim.rs:444-516 | at most one cancel, for the job the first event named, and only after that event; nothing is read past a terminal event |
| `Submission.OutcomeExactly` | crates/rbs-client/src/shim.rs:474-516 | told from the last message: an exit finishes with its status, `Mismatch` is a toolchain mismatch, `Busy` saturation, another rejection a refusal; a job is called finished otherwise only when the user interrupts before it has a name |
| `Submission.ConsumedOnce` | crates/rbs-client/src/shim.rs:444-516 | the messages alone decide how many of them are consumed, what is written and which job is cancelled |
| `Submission.StreamsKeptApart` | crates/rbs-client/src/shim.rs:488-497 | the job's standard output goes to standard output and its standard error to standard error, byte for byte and in order |
| `Shim.CompilingIsNotPassthrough` | crates/rbs-client/src/shim.rs:118-223 | no compiling subcommand is passed through untouched |
| `Shim.TryRemote` | crates/rbs-client/src/shim.rs:317-333 | root, push, submit; without a submission there is evidence of what failed |
| `Shim.TryLocal` | crates/rbs-client/src/shim.rs:355-374 | local server, connect, hello, submit; likewise |
| `Shim.Settle` | crates/rbs-client/src/shim.rs:334-418 | what each outcome leads to: an ending that keeps all guarantees, or the next backend |
| `Shim.Run` | crates/rbs-client/src/shim.rs:225-422 | for all hook behaviours: one exec at most and last; one touch at most, exactly when wanted and a build ran well or is about to run; remote submit only after a successful push; only chosen backends used, none passed over unless it failed; nothing after a broken toolchain contract but its message and exit 1; a finished job is final; auto never gives up; a forced mode execs only by policy or to link a remote build |
| `Shim.RunIsAsDocumented` | crates/rbs-client/src/shim.rs:118-422 | what the policy keeps here only touches and execs; a touch happens exactly when cargo policy, the touch setting and a compiling subcommand call for one and the command runs here or was built well; a finished job's status is the exit code, a signal counting 128 more, unless a remote `cargo build` is linked here |
| `Shim.MismatchMessageIsFinal` | crates/rbs-client/src/shim.rs:384-398 | after a submission whose last message is a toolchain mismatch, with a pinned or overridden toolchain, only the message and exit 1 follow |
| `Shim.ExitMessageIsFinal` | crates/rbs-client/src/shim.rs:334-383 | after a submission whose last message is the job's exit, the run ends with that status or links here |
| `Shim.SubcommandSkipsOverride` | crates/rbs-client/src/shim.rs:89-117 | the subcommand is the word after the program, or after `+toolchain` when that is there |

## Left out

- Process spawning, signals, systemd scopes, `/proc` and FIFO handling: operating-system effects.
- JSON and TOML: a serialized message is an opaque newline-free, non-blank byte string; malformed JSON ends a reader and is not modelled.
- S3, sqlite and ssh clients: the store is a map, the usage index an input map.
- Real time: timeouts and grace periods are free choices, timestamps are integers.
- Task abort at server shutdown: it drops connections without cleanup.
- Status requests, hello messages and protocol errors on a server connection: they hold no slot.
- Cancelling a running job: it signals the process and changes neither the scheduler nor the waiters.
- SlotTheorems.EventsFormALife: events carry no payload but the exit status; the position in `Queued`, the reason in `Rejected` and the bytes of an output are not followed through the server.
- SlotSafety.LocalTracks: the bounded event channel is unbounded, so back-pressure on a pump is not captured.
- SlotProgress.ReleaseArrives: says that a release can come, not that it must; fairness of the runtime and of the jobs is not modelled.
- WakeLoop.Shared.Wake: assumes the caller just polled or finished with the same memory snapshot and that queued ids are distinct, as both callers and the id counter provide.
- StoreGc.ObjectStore.List: keys and prefix are plain strings; the path normalisation of the object store client is not modelled.
- StoreGc.ObjectStore.Execute: which of the concurrent deletions are done when one errs is left open.
- Uploads by the build cache during a touch: touches and collections are the only writers in the touch protocol.
- Submission.Submit: a stream of events that never ends is not a script; every finite prefix of one is.
- LineDiff.FillTable: the counters are unbounded, memory is not modelled.
- ShellQuote.LoginShellReadsBack: NUL characters, which no command line can hold, are treated as ordinary characters.
- Log lines written through tracing, except the three ways the shim gives up.
- Rendering of configuration files, the doctor, bootstrap orchestration, fingerprinting, release ordering and host planning: straight-line code or finite tables that would only add easy members.
