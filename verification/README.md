# Verified model of the durable webhook relay

The relay accepts GitHub, GitLab and Lark deliveries, archives each of them before it answers, queues them in a bbolt
database, and forwards them to Lark chats under a persistent rate limit. This project models the state machines over
that database and the archive, and proves what they keep over every run.

A bbolt bucket is a map (or, where a cursor's order matters, a sorted sequence), a transaction is one function from the
buckets it finds to the buckets it commits, and the methods of class `Store.Store` carry those transactions out step by
step, with the loops and early returns of the code, and are proved equal to them. Concurrency is modelled by
interleaving: a protocol is a set of atomic steps, taken in any order by any number of actors, with a crash possible
between any two. The theorems are about all sequences of such steps.

| file | what it models |
|---|---|
| `totals.dfy`, `byte_order.dfy`, `options.dfy` | sums over a bucket; the byte order of keys; lookups that may find nothing |
| `keys.dfy`, `subscriptions.dfy` | key encodings; the repository prefix scan and the targets of a delivery |
| `dedupe.dfy` | the dedupe map, its expiry index, cleanup and eviction |
| `rate_limit.dfy` | the sliding-window limiter with cooldown |
| `queue.dfy` | the queue transactions as functions |
| `queue_invariant.dfy`, `queue_counters.dfy`, `queue_runs.dfy` | conservation, exact counters, and both over every run |
| `queue_effects.dfy` | what each transaction does, stated of the buckets before and after it |
| `store.dfy` | the transactions as methods of the store object, and opening an existing database |
| `legacy.dfy` | dead letters from before the archive lock |
| `archive.dfy`, `admission.dfy`, `progress.dfy`, `recovery.dfy` | the archive, two-phase admission as a concurrent protocol, how its actors get to their end, crash recovery |
| `neighbours.dfy`, `audit.dfy` | what other goroutines do in between; the audit-log poller and its checkpoint |
| `onboarding.dfy` | the lease on onboarding callbacks |
| `workflow.dfy`, `check_order.dfy`, `card_checks.dfy` | card merge, runs and checks in every order, the deliveries of one check in every order |
| `cards.dfy`, `pipeline.dfy` | card states and their reactions, the GitLab gate |
| `batching.dfy` | cutting lines to the limit and packing them into batches |
| `chat_delivery.dfy` | at-least-once delivery per chat, over every run |
| `worker_steps.dfy`, `worker.dfy`, `card_worker.dfy` | the worker that keeps to it, for ordinary items and for cards |

## Assumptions

- Clock readings do not run backwards where a theorem speaks of time (`ClockNondecreasing`, `Tick`, poll times).
- A SHA-256 digest stands for its payload: equal digests mean equal payloads.
- A Go string is a `string` with one character per byte; in `batching.dfy`, where UTF-8 matters, it is a sequence of bytes.
- The JSON size of an item is an unknown function of its immutable fields plus the exact contribution of its chat list;
  the size of an encoded dead letter is an unknown function of the dead letter. Serialized message sizes are unknown.
- A bbolt cursor meets keys in byte order and is not disturbed by deleting the key it stands on. `Keys` shows what that
  order means for sequences, times and index entries.
- Store runs start from an empty database and admit through `Admit`, `AdmitToChats` or `AdmitArchiveOnly`, as every
  service path does. Items given to failure handling come from `Due` where a theorem says `FromDue`.
- Counter subtraction is modelled with its 64-bit wrap-around and shown never to wrap. Additions need no wrap: the
  limits are 64-bit values and the sums stay within them. The sequence counter is taken not to exhaust 64 bits.
- The store methods work on a database that keeps the store invariant. `Store.Store.Open` says what it takes to get there from
  any database: nothing but missing states may be wrong, its content must fit the configured limits, and its dedupe
  records must belong to known deliveries.
- Delivery IDs of audit records start with `audit:` and the organization, and no other delivery ID does.
- The answers of Lark, faults of the store while the worker runs, free disk space and disk errors are arbitrary inputs.
  What other goroutines do in between is a nondeterministic choice.

## Where the code and its documentation part

Line numbers of documentation below are those of the service's own README, which lies beside `go.mod`.

- Line 126 promises at-least-once delivery. A GitLab pipeline item whose Lark call failed is drained as stale on retry
  exactly if its first try was merged or another delivery of its stage rank or above has been merged while it waited
  (`Pipeline.RetryIsDrainedIffMerged`). A running pipeline never gets its card from the retry of its first delivery
  (`Pipeline.FirstRetryIsDrained`), and an unmerged failure is drained by a later cancellation
  (`Pipeline.UnmergedIsDrained`). The per-chat theorem therefore leaves pipeline items out (`ChatDelivery.Tracked`).
- Line 105 says that pipeline cards converge on the final state. They do exactly if one delivery has both the highest
  stage and the latest time, and no other says something else at that stage and time (`Pipeline.StagesConvergeIff`);
  several stages may share the creation time of the pipeline (`Pipeline.StagesConverge`). A pipeline that is pending
  and then manual is a case in which the order of arrival decides (`Pipeline.PendingAndManualDiverge`).
- Line 130 says that a rerun clears prior checks. It does exactly if an attempt was known before
  (`Workflow.RerunClearsChecksIff`); a check that precedes the first seen run of attempt 2 stays
  (`Workflow.CheckSurvivesRerun`).
- Line 130 also says that check timestamps are used to avoid stale updates. They advance the time of the card, so a late
  check can hide a run update for good (`Workflow.CheckHidesRunIff`, `Workflow.ChecksBreakConvergence`);
  `CheckOrder.StatusConvergesIff` says for which runs and checks the order of arrival does not matter. Within an attempt
  the time of a stored check goes back exactly if one that has not ended is replaced by one that ended earlier
  (`CardChecks.CheckTimeGoesBackIff`), so a repeated completion takes the place of a later restart
  (`CardChecks.RestartIsOvertaken`); `CardChecks.CheckConvergesIff` says when the order does not matter.
- A dead letter without archived flag is requeued but never forwarded (`Legacy.RequeuedIsForwardedIff`); one from a
  version without delivery states ends so even after opening and recovery (`Legacy.OldDeadLetterIsNeverForwarded`).
- Recording an identity that still has a live dedupe record leaves a stale index entry (`Dedupe.PutExactIffFresh`);
  admission never does this, and otherwise coverage and the size bound survive (`Dedupe.EvictionBoundsCovered`).
- Unix milliseconds of instants between 1966 and 1973 are read as seconds (`Audit.SecondsAndMillisecondsAgree`).

## Model

| member | source | states |
|---|---|---|
| QueueRuns.DeliveriesAreConserved | internal/store/store.go:400-915 | over every run a delivery to be forwarded owns one nonzero sequence up to `next`, alone, and is in the queue, in the dead letters or in neither exactly as its permanent status says |
| QueueRuns.CountersAreExact | internal/store/store.go:1531-1569 | at every point of every run the cached counts and bytes equal the recomputed ones and respect their limits, so the rebuilds change nothing |
| QueueRuns.RunKeepsInv | internal/store/store.go:400-956 | every sequence of transactions keeps conservation, recoverability, exact counters, capacity bounds and an exact dedupe index |
| QueueRuns.IdentityIsPermanent | internal/store/store.go:406-422 | an admitted delivery keeps event, payload and sequence in every continuation, and archival is never undone, so admitting it again makes no second item |
| QueueRuns.ExecKeepsInv | internal/store/store.go:400-956 | each transaction by itself keeps the whole store invariant |
| QueueRuns.ExecSettled | internal/store/store.go:758-865 | as long as failures concern items from Due, queued items are locked exactly while their delivery is unarchived and dead items are archived |
| QueueInvariant.AdmitConserves | internal/store/store.go:400-464 | admission keeps every item under the sequence its delivery records, and sequences unique |
| QueueInvariant.RequeueConserves | internal/store/store.go:867-915 | requeueing moves an item back without breaking ownership or location |
| QueueInvariant.FailOneConserves | internal/store/store.go:806-850 | failing one item, by retry or by dead-lettering, keeps conservation |
| QueueCounters.FinalizeNeverFails | internal/store/store.go:518-545 | under the invariant finalization fails only for an unknown delivery: the underflow and overflow errors cannot occur, and the counters stay exact and within limits |
| QueueCounters.AdmitCounts | internal/store/store.go:424-462 | the counters an admission adds up equal a recount, and stay within the limits |
| QueueCounters.DeliverOneCounts | internal/store/store.go:676-692 | deleting an item subtracts exactly one and what the item was charged, without wrap-around |
| QueueCounters.DeliverAllKeeps | internal/store/store.go:654-695 | deleting any list of items, present or not, keeps the whole invariant |
| QueueCounters.CompleteAllKeeps | internal/store/store.go:700-755 | completing a chat never raises count or bytes, for any list of items |
| QueueCounters.PreflightExact | internal/store/store.go:773-862 | the dead-letter bytes computed before the move are the bytes stored by it, so limits hold after it; a batch judged too large dead-letters nothing |
| QueueCounters.EveryPresentItemCounted | internal/store/store.go:773-850 | retried plus dead-lettered is the number of items of the batch that were still queued, each once |
| QueueEffects.FailureIsExact | internal/store/store.go:758-865 | of the buckets before and after: the listed items that are permanent failures or out of attempts move to the dead letters, all of them if these have room for all and none otherwise; every other listed item stays with one attempt more, the reason and the retry time; everything else stays as it was; and the result counts both |
| QueueEffects.FailedItemComesBack | internal/store/store.go:806-850 | one failed item is dead exactly if it may not be tried again and the batch fits, and otherwise queued with every field written out and, once unlocked, found by Due exactly when the retry time has come |
| QueueEffects.FullIffNoRoom | internal/store/store.go:797-802 | the preflight refuses exactly the batches whose dead items do not fit beside those that are there, in number and bytes |
| QueueEffects.RequeueIsExact | internal/store/store.go:867-915 | a dead letter is requeued exactly if it is there and fits: under its sequence, with no attempts, due at once, locked as it was, its delivery queued and archived; nothing else changes |
| QueueEffects.AdmitIsExact | internal/store/store.go:400-464 | an admission is answered known, conflicting or full exactly when it is, and otherwise stores one locked item due at once, its state with the payload, and a dedupe record of the given lifetime |
| QueueEffects.AdmitArchiveOnlyIsExact | internal/store/store.go:468-494 | archive-only admission answers known or conflicting exactly when it is, and otherwise stores a state with the payload and no sequence |
| QueueEffects.FinalizeIsExact | internal/store/store.go:496-548 | finalization marks the state, drops its copy of the payload, unlocks the item if it is queued, leaves the counters alone, and changes nothing else |
| QueueEffects.DeliverAllIsExact | internal/store/store.go:654-695 | deleting any list takes exactly the listed items off the queue and marks exactly their deliveries delivered |
| Store.Store.Open | internal/store/store.go:179-209 | opening any database rebuilds counters, dedupe index and missing states and keeps the rest; one that lacks only states becomes conserved, each new state being archived exactly if it is of a queued item that is unlocked, and consistent if it fits the limits and its dedupe records are known; a sound one loses expired dedupe records only |
| Store.ReopenedConserves | internal/store/store.go:1466-1498 | adding the missing states restores conservation, and keeps every unarchived delivery recoverable |
| Store.ReopenedRemembers | internal/store/store.go:1466-1498 | every item whose delivery had no state has one after opening, with its event, payload and sequence: archived exactly if it is a queued item that is unlocked |
| Store.ReopenedSettled | internal/store/store.go:1466-1498 | if items and states agreed on archival as far as there were states, and dead letters are archived, all of them agree after opening |
| Store.ReopenedUnchanged | internal/store/store.go:1466-1569 | on a sound database the rebuilds change nothing but expired dedupe records |
| Store.Store.Admit | internal/store/store.go:400-464 | the admission transaction, including conflict, duplicate and full queue, refines the specified one and keeps the store consistent |
| Store.Store.AdmitArchiveOnly | internal/store/store.go:468-494 | archive-only admission refines the specified one: a state without a sequence, nothing queued |
| Store.Store.FinalizeArchive | internal/store/store.go:496-548 | finalization refines the specified one, and succeeds exactly for known deliveries |
| Store.Store.LookupDelivery | internal/store/store.go:584-607 | finds a delivery by identity, reports a conflict for another event or payload, and whether it is archived |
| Store.Store.PendingArchives | internal/store/store.go:609-631 | returns the first `limit` unarchived deliveries in key order, each once, and misses none unless the limit is reached |
| Store.Store.Due | internal/store/store.go:633-652 | returns in sequence order the first `limit` items that are archived and whose time has come, as they are stored |
| Store.ScanDue | internal/store/store.go:638-650 | the cursor loop finds exactly the due sequences below the point it reached, ascending |
| Store.Store.Delete | internal/store/store.go:654-695 | deletion refines the specified one item by item, skipping absent items |
| Store.Store.CompleteChatDelivery | internal/store/store.go:700-755 | removes the chat from each present item, delivers those without remaining chats, and recounts |
| Store.CompleteItem | internal/store/store.go:706-750 | the filtering loop for one item computes the remaining chats and the right one of its four outcomes |
| Store.Store.HandleFailure | internal/store/store.go:758-865 | two passes over the items refine the specified all-or-nothing failure, with duplicate check, cooldown and recount |
| Store.Preflight | internal/store/store.go:773-796 | the first pass counts the exhausted items present and the bytes they would add |
| Store.MoveFailed | internal/store/store.go:806-850 | the second pass, over the items read in the first, does what failing the given sequences does |
| Store.HasRepeats | internal/store/store.go:766-772 | true exactly if a sequence occurs twice |
| Store.Store.RequeueDeadLetter | internal/store/store.go:867-915 | requeueing refines the specified move and keeps the store consistent, or changes nothing |
| Store.Store.ReserveRequest | internal/store/store.go:959-1002 | the reported wait and the new limiter state are the specified ones; nothing else changes |
| Store.Store.CleanupDedupe | internal/store/store.go:951-956 | only the dedupe bucket changes, as specified |
| Store.CountActive | internal/store/store.go:1531-1549 | the rebuild scan returns the number and total charge of the queue |
| Store.CountDead | internal/store/store.go:1551-1569 | the rebuild scan returns the number and total size of the dead letters |
| Store.AddMissingStates | internal/store/store.go:1466-1498 | every item ends up with a state, existing states are untouched, and each added state comes from an item, from a queued one with its archived flag |
| Store.NoStateMissing | internal/store/store.go:1466-1498 | a conserved database already has a state for every item |
| Store.AbsentItemsSkipped | internal/store/store.go:773-850 | failing the items that are still present is failing all that were given |
| Legacy.RequeuedIsForwardedIff | internal/store/store.go:867-915 | a requeued dead letter can ever be forwarded exactly if the dead item carried the archived flag |
| Legacy.OldDeadLetterIsNeverForwarded | internal/store/store.go:867-915 | a concrete dead letter of an older version that is opened, recovered and requeued without an error and never forwarded |
| Legacy.LockedForGood | internal/store/store.go:496-548 | an item locked while its delivery counts as archived stays locked in every continuation |
| Dedupe.EvictsEarliest | internal/store/store.go:1594-1615 | eviction of an exact index keeps it exact, keeps at most the maximum, and drops exactly the surplus from its front |
| Dedupe.EvictedExpireFirst | internal/store/store.go:1594-1615 | no evicted record expires after a surviving one |
| Dedupe.DroppedRemovesFirst | internal/store/store.go:1594-1615 | dropping n entries removes exactly the records of the first n keys |
| Dedupe.CleansExpired | internal/store/store.go:1570-1593 | cleanup removes only expired records, from the front, and leaves an expired one only at its limit |
| Dedupe.PutExactIffFresh | internal/store/store.go:441-462 | recording an identity keeps the index exact if and only if the identity had no live record |
| Dedupe.EvictionBoundsCovered | internal/store/store.go:1594-1615 | even with stale entries eviction terminates within the bound and every record stays indexed |
| Dedupe.CleaningKeepsCovered | internal/store/store.go:1570-1593 | cleanup with stale entries keeps every record indexed and counted |
| Dedupe.ExactIsDeterminedByLive | internal/store/store.go:1500-1530 | the exact index of a map is unique, so rebuilding it at open reproduces it |
| Dedupe.CleanupDedupe | internal/store/store.go:1570-1593 | the cursor loop is the specified cleanup |
| Dedupe.EvictDedupe | internal/store/store.go:1594-1615 | the eviction loop terminates and is the specified eviction |
| Dedupe.RebuildDedupe | internal/store/store.go:1500-1530 | the rebuild leaves an exact index of the unexpired records, evicted to the maximum |
| RateLimit.RateBound | internal/store/store.go:959-1002 | over every run with nondecreasing times a one-second window holds at most 5 grants and a one-minute window at most 100, although the scan deletes entries |
| RateLimit.NoGrantInCooldown | internal/store/store.go:964-969 | no grant falls inside a cooldown requested before it |
| RateLimit.WaitIsExact | internal/store/store.go:964-999 | a refusal reports a positive wait, and every retry before it ends is refused too |
| RateLimit.WaitingAdvances | internal/forwarder/workflow.go:205-219 | a sole consumer that waits as told never meets the same obstacle again, so three waits at most precede a grant |
| RateLimit.GrantIffNoObstacle | internal/store/store.go:964-999 | a slot is granted exactly if there is no cooldown, no full second and no full minute |
| RateLimit.GrantIffRoom | internal/store/store.go:964-999 | after any run a slot is granted exactly if every cooldown that was requested is over, the fifth-last grant is at least a second old and the hundredth-last at least a minute |
| RateLimit.CooldownIsRequested | internal/store/store.go:851-857 | the stored cooldown is one that was requested |
| RateLimit.RunIsPaced | internal/store/store.go:959-1002 | after any run the bucket is a suffix of all grants that holds at least those of the last minute |
| RateLimit.ReserveRequest | internal/store/store.go:959-1002 | one cursor pass with deletion computes the wait and the new bucket |
| Archive.PublishedIsWriteOnce | internal/archive/archive.go:202-287 | publishing never changes an archived payload, and reports a conflict exactly if another payload is there |
| Archive.AdmissionRequired | internal/archive/archive.go:136-142 | four times the payload plus 2 MiB, saturating at the largest 64-bit value |
| Archive.AdmissionLeavesReserve | internal/archive/archive.go:181-193 | an admission passes the space check exactly if the requirement fits beside the configured reserve and did not saturate |
| Archive.Archive.Store | internal/archive/archive.go:196-287 | storing outside a reservation succeeds exactly if the payload is there already, or is absent and fits; otherwise nothing changes |
| Archive.Archive.Reserve | internal/archive/archive.go:156-165 | a reservation is handed out exactly if the space suffices, and only then is the lock kept |
| Archive.Reservation.Store | internal/archive/archive.go:167-172 | a released reservation stores nothing; a held one publishes write-once |
| Archive.Reservation.Release | internal/archive/archive.go:174-179 | a second release does not free a lock taken by someone else |
| Admission.RunIsSafe | internal/webhook/handler.go:74-153 | every interleaving of handlers, recovery, worker and operator, with crashes anywhere, keeps the joint invariant of store, archive, actors and lock |
| Admission.NextKeepsSafe | internal/gitlabwebhook/handler.go:113-192 | each single step of any actor keeps that invariant, for forwarded and archive-only events |
| Admission.DueOnlyIfArchived | internal/store/store.go:633-652 | an unlocked item is archived with exactly its event and bytes |
| Admission.UnarchivedIsRecoverable | internal/store/store.go:496-517 | every unarchived delivery still carries its payload in its permanent state |
| Admission.AcceptedImpliesArchived | internal/webhook/handler.go:98-152 | a 202 implies, from then on and after any crash, that the payload is archived and the delivery unlocked |
| Admission.AcceptedIsQueued | internal/webhook/handler.go:127-152 | where event and payload decide what is forwarded, a 202 for a forwarded request implies that it was queued under one sequence of its own, in one place or delivered, and a 202 for any other that it was not |
| Admission.ArchiveNeverConflicts | cmd/lark-git-webhook/main.go:171-186 | no archive operation of a handler or of recovery ever meets a conflict |
| Admission.OneAdmissionAtATime | internal/archive/archive.go:145-179 | two actors are never both between Reserve and Release |
| Admission.HistoryIsKept | internal/archive/archive.go:202-287 | along every run the archive only grows and identities are permanent |
| Progress.NewDeliveryIsAnswered | internal/webhook/handler.go:74-152 | an undisturbed new delivery that fits the queue is answered 202 after five steps, archived and unlocked, the lock free again; a forwarded one is queued under the next sequence with every field as requested |
| Progress.KnownDeliveryIsAnswered | internal/webhook/handler.go:84-104 | one that is archived and unlocked already is answered 202 after two steps and changes nothing |
| Progress.LockedDeliveryIsAnswered | internal/webhook/handler.go:94-104 | one that is archived but still locked is unlocked and answered 202 after three steps, without a second item |
| Progress.UnfiledDeliveryIsAnswered | internal/gitlabwebhook/handler.go:113-192 | one that a crash left without archived payload is archived and answered 202 after six steps through a reservation, without a second item |
| Progress.RequestsEndExplained | internal/webhook/handler.go:74-153 | in every interleaving a request ends only by a crash, by giving up, by another event or payload under its ID, by a full queue, or by a 202 |
| Progress.StepsLeadOn | internal/archive/archive.go:145-179 | an actor waits only while the archive lock is held by another, and every other step of its own brings it closer to its end, which is at most six steps away for a request |
| Progress.RecoveryEndsDone | cmd/lark-git-webhook/main.go:171-186 | recovery that is not interrupted ends only when nothing is left of what it took on |
| Progress.RecoveryFinishes | cmd/lark-git-webhook/main.go:171-186 | undisturbed recovery archives and unlocks every delivery it took on, and ends |
| Recovery.RecoverPending | cmd/lark-git-webhook/main.go:171-186 | a round keeps store and archive sound whatever fails; with space and no fault it succeeds and clears exactly the first 100 pending deliveries in key order, or all |
| Recovery.RecoverOne | cmd/lark-git-webhook/main.go:176-183 | recovering one delivery archives and unlocks it and touches no other; without space or after a conflict it changes nothing, and if only the unlocking fails the payload is archived and the delivery stays pending |
| Recovery.LockedItemIsRecovered | internal/store/store.go:1466-1481 | an item from before delivery states is pending after opening exactly if it is locked, and finalizing its delivery unlocks it |
| Recovery.RecoverArchives | cmd/lark-git-webhook/main.go:188-201 | n rounds with space and no fault clear exactly the first 100 n pending deliveries in key order |
| Recovery.EarliestAdd | cmd/lark-git-webhook/main.go:171-201 | the first keys and then the first of the rest are the first keys together |
| Recovery.RoundsNeeded | cmd/lark-git-webhook/main.go:171-201 | n pending deliveries are gone exactly from round n/100, rounded up, on |
| Audit.NoAuditGap | internal/audit/poller.go:75-123 | when a poll succeeds, every record created after the bootstrap and visible by its start is archived and was queued exactly once, under a sequence of its own, in one place or delivered; no record up to the bootstrap ever is admitted; other goroutines may commit between and during polls |
| Audit.TraceHasNoGap | internal/audit/poller.go:75-123 | successful, failed and interrupted polls in any order, with other goroutines in between and inside, never lose a record: what is past the checkpoint was archived and queued |
| Audit.NewlyVisibleIsFetched | internal/audit/client.go:50-57 | a record that became visible since the checkpoint lies in the five-minute overlap of the next query, where records are told apart by document ID or bytes |
| Audit.Poller.PollOnce | internal/audit/poller.go:79-123 | one poll, with other goroutines at work throughout, advances the checkpoint only after every passing record is archived and queued, and admits no other audit record; it fails only if it is cancelled or not answered, meets an unstamped record that must be filtered, or a record is refused |
| Audit.Poller.AdmitRecord | internal/audit/poller.go:164-208 | with other goroutines between its steps, admission of one record keeps store and archive sound, releases the lock, adds no other audit record, and on success leaves the record archived and queued; it fails only for a fault, a conflicting delivery, or a lack of space on disk or in the queue |
| Neighbours.Others | internal/store/store.go:400-1002 | any number of transactions and publications of handlers, recovery, worker and operator keep store and archive sound, forget nothing, and add no delivery of the reserved kind |
| Audit.SecondsAndMillisecondsAgree | internal/audit/poller.go:144-162 | the Unix seconds and the Unix milliseconds of an instant are both read as that instant exactly if the seconds are zero or have nine to eleven digits |
| Audit.AuditIDsAgreeIff | internal/audit/poller.go:173-178 | two records share a delivery ID exactly if they have the same document ID or, without one, the same bytes, or the document ID of one is the digest of the other |
| Audit.OrganizationsAreSeparate | internal/audit/poller.go:178 | records of two organizations never share a delivery ID, as long as their names have no colon |
| Audit.FirstReadableStampCounts | internal/audit/poller.go:127-142 | a record was created at the time of its first field that can be read |
| Audit.QueryOverlaps | internal/audit/client.go:50-57 | a query starts at a whole second, covers everything within the overlap before its checkpoint, and no more than a second besides |
| Onboarding.WriteOnceIffFenced | internal/store/store.go:1379-1464 | over all runs a stored toast is never replaced if and only if the budget is at most stale timeout plus guard |
| Onboarding.ServiceIsWriteOnce | internal/larkcallback/receiver.go:108-121 | the constants of the service are on the safe side |
| Onboarding.RunKeepsPublished | internal/larkcallback/onboarding_delivery.go:124-255 | from any leased state every continuation keeps the stored toasts and the lease |
| Onboarding.ClaimSupersedes | internal/store/store.go:1379-1419 | a claim succeeds only over claimers that can no longer write |
| Onboarding.OverwriteRun | internal/store/store.go:1379-1450 | with a longer budget there is a run in which a superseded claimer overwrites a toast |
| Onboarding.ClaimedIff | internal/store/store.go:1379-1419 | a claim is granted exactly if enough time is left and nothing is stored or a claim that went stale by the caller's own reading of the clock |
| Onboarding.PublishedIff | internal/store/store.go:1427-1450 | a toast is stored exactly if it is not empty and enough time is left, whatever is stored already |
| Onboarding.CallbackStore.ClaimContext | internal/store/store.go:1379-1419 | claiming, with a deadline check before, inside and at the end of the transaction, is decided by the last check |
| Onboarding.CallbackStore.SetContext | internal/store/store.go:1427-1450 | publishing refuses empty toasts and late writes and otherwise overwrites what is stored |
| Workflow.MergeUpdate | internal/store/store.go:1046-1122 | the step-by-step merge computes the specified card state |
| Workflow.TakeUpdate | internal/store/store.go:1051-1106 | the acceptance and attempt logic computes the specified state |
| Workflow.TakeCheck | internal/store/store.go:1107-1124 | the check logic computes the specified state |
| Workflow.RunNeverRegresses | internal/store/store.go:1051-1106 | for any updates attempt and time never decrease lexicographically along a run |
| Workflow.SupersededChecksStayOut | internal/store/store.go:1081-1124 | once a positive attempt was superseded, every stored check is timed and not before the start of the attempt, for good |
| Workflow.RerunClearsChecksIff | internal/store/store.go:1083-1097 | a rerun leaves no checks exactly if an attempt was known or there were none; its conclusion is reset |
| Workflow.CheckSurvivesRerun | internal/store/store.go:1089-1096 | a concrete check that precedes the first seen run, of attempt 2, and stays on the card |
| Workflow.LatestIsShown | internal/store/store.go:1051-1106 | after any order and repetition of a lifecycle's run updates the card shows the latest of them |
| Workflow.MergeConverges | internal/store/store.go:1051-1106 | two deliveries of the same run updates, in any orders with any repetitions, show the same attempt, status, conclusion and time |
| Workflow.LatestNamesRun | internal/store/store.go:1065-1082 | after any order and repetition of a lifecycle the names and links on the card are those of its latest update |
| Workflow.EndedRunStaysEnded | internal/store/store.go:1051-1062 | a run that has ended stays ended, whatever untimed updates of its attempt still arrive |
| Workflow.CheckHidesRunIff | internal/store/store.go:1051-1106 | the two orders of a check and a run update end with different statuses exactly if the run update brings no new attempt, would be accepted and change the status, and is older than the check |
| Workflow.ChecksBreakConvergence | internal/store/store.go:1100-1106 | a concrete run and check that show "completed" in one order and "in_progress" in the other |
| CheckOrder.StatusConvergesIff | internal/store/store.go:1051-1106 | any timed runs and checks of a card end with the same status in every order, with any repetitions, if and only if all runs from a limit on have one status: the limit is the latest run of the highest attempt, or its earliest if some check is later than all of them |
| CheckOrder.LimitExists | internal/store/store.go:1051-1106 | there is such an attempt and such a limit as soon as there is a run |
| CheckOrder.EndsWith | internal/store/store.go:1051-1106 | every run from the limit on has the last word in some order |
| CardChecks.FirstDeliveryIsStoredIff | internal/store/store.go:1107-1124 | the first delivery of a check is stored exactly if it is not older than the attempt, or untimed in the first one; other checks stay |
| CardChecks.NewAttemptCutsOff | internal/store/store.go:1083-1124 | after a new attempt a timed check is shown exactly if it is not older than the start that the run update named or, without one, than the update |
| CardChecks.EndedCheckGivesWayIff | internal/store/store.go:1107-1124 | within an attempt a stored check that has ended gives way exactly to a timed delivery of it that is older neither than it nor than the attempt; other checks stay |
| CardChecks.CheckTimeGoesBackIff | internal/store/store.go:1119 | the time of a stored check goes back exactly if a check that has not ended is replaced by one that ended earlier |
| CardChecks.EndedCheckNeverRegresses | internal/store/store.go:1107-1124 | over any run within an attempt in which all deliveries of a check report its end, its time never decreases |
| CardChecks.RestartIsOvertaken | internal/store/store.go:1119 | a concrete repeated completion that takes the place of a later restart of its check |
| CardChecks.CheckConvergesIff | internal/store/store.go:1107-1124 | the timed deliveries of a check end with the same one, in every order, with any repetitions and whatever else arrives in the attempt, if and only if one is later than all the others and reports the end if any does |
| CardChecks.LatestCompletionIsShown | internal/store/store.go:1139-1147 | a completed check is shown as it completed last, in every order and with any repetitions, by the completion times of the completed deliveries and the start times of the others |
| Workflow.KeyIsFaithful | internal/store/store.go:1031-1037 | cards share a key only if chat, repository and suite agree, for names without NUL |
| Pipeline.CardsNeverRegress | internal/forwarder/gitlab_pipeline.go:144-203 | over any run of timed deliveries cards stay well formed (conclusion is the final status or empty) and neither stage nor time goes back |
| Pipeline.StagesConvergeIff | internal/forwarder/gitlab_pipeline.go:144-203 | the deliveries of a pipeline end with the same card in every order, with any repetitions, if and only if one of them has the highest stage and the latest time and no other says something else at that stage and time |
| Pipeline.StagesConverge | internal/forwarder/gitlab_pipeline.go:112-203 | deliveries in which no higher stage is older, and equal rank and time mean equal status, end with the same card in any order; stages may share the creation time of the pipeline |
| Pipeline.LatestStageIsShown | internal/forwarder/gitlab_pipeline.go:144-203 | if one delivery dominates the others in stage and time, every order and repetition ends with it |
| Pipeline.TwoStagesConvergeIff | internal/forwarder/gitlab_pipeline.go:144-164 | any two stages end with the same card in both orders if and only if the higher is not older, and equal rank and time mean equal status |
| Pipeline.PendingAndManualDiverge | internal/forwarder/gitlab_pipeline.go:62-126 | a concrete pending and manual delivery with the creation time of their pipeline, of which the first to arrive stays |
| Pipeline.RetryIsDrainedIffMerged | internal/forwarder/gitlab_pipeline.go:186-203 | whatever cards are stored and whatever is delivered before the retry, a delivery that passed the gate is dropped on retry exactly if its first try made or updated its card, or if a delivery of its stage rank or above has been merged since |
| Pipeline.UnmergedIsDrained | internal/forwarder/gitlab_pipeline.go:186-203 | a concrete failure that passes the gate without being merged, and whose retry a later cancellation drains |
| Pipeline.FirstRetryIsDrained | internal/forwarder/gitlab_pipeline.go:186-203 | a concrete first delivery whose stored state has no card message and whose retry is dropped |
| Pipeline.GateReadsMergedKey | internal/forwarder/gitlab_pipeline.go:128-138 | the gate reads the card that the merge then writes |
| Cards.ReactionsAreReconciled | internal/forwarder/workflow.go:132-194 | over the life of a card, with failure at any call, reaction ID and type are stored together, and an attempt that gets through leaves the reaction of the current conclusion |
| Cards.AttemptStopsAtFault | internal/forwarder/workflow.go:132-194 | an attempt stops only at a slot it was not granted, a call that Lark refused or a store error, and says which; if nothing fails it gets through |
| Cards.AttemptRemembers | internal/forwarder/workflow.go:132-194 | what an attempt leaves behind: the message that the card had or that Lark created and the store took; the old reaction unless its deletion was stored; the new one exactly if it was created and stored |
| Cards.MessageIsKept | internal/forwarder/workflow.go:132-160 | over the whole life of a card its message stays once it has one |
| CardWorker.CardWorker.SendCard | internal/forwarder/workflow.go:132-194 | wherever an attempt stops it changes only message and reaction of its card and keeps them paired, and what stopped it is what is recorded; the chat is completed only after Lark accepted the card and the reaction is reconciled, and is completed if nothing fails; every request had a slot |
| CardWorker.CardWorker.Reconcile | internal/forwarder/workflow.go:161-187 | the reaction steps store exactly what the attempt reached, each request with a slot of its own, and the one that fails decides what is recorded |
| CardWorker.CardWorker.SendWorkflow | internal/forwarder/workflow.go:112-126 | a delivery is merged into its own card only and completes only after Lark accepted it and with the right reaction; one that cannot be parsed or used changes no card and is recorded as failed |
| CardWorker.CardWorker.SendWorkflows | internal/forwarder/workflow.go:103-110 | every chat of a card item in turn keeps the per-chat promise whatever fails, and if nothing fails the item is delivered; a chat that fails without asking for a pause keeps no other from its turn |
| CardWorker.CardWorker.SendGitlabPipeline | internal/forwarder/gitlab_pipeline.go:175-203 | a stale delivery is drained without a request and changes no card; any other is merged into its own card only, and completes only after Lark accepted it and with the reaction of the stage shown; one that cannot be parsed, read or used is recorded as failed |
| CardWorker.CardWorker.Fail | internal/forwarder/workflow.go:221-248 | a failed card item is handed to failure handling with the permanence and Retry-After of the answer and a delay that honours Retry-After and backoff and exceeds neither by more than the jitter, unless the recording itself fails |
| Cards.CardStore.UpsertWorkflow | internal/store/store.go:1024-1134 | the merged state is stored under the card's key, and an update without repository or suite changes nothing |
| Cards.CardStore.SetMessage | internal/store/store.go:1149-1182 | changes the message of an existing card only |
| Cards.CardStore.SetReaction | internal/store/store.go:1155-1182 | changes the reaction of an existing card only |
| Cards.MergeKeepsReaction | internal/store/store.go:1046-1124 | merging a delivery leaves message and reaction alone |
| ChatDelivery.EveryChatAtLeastOnce | internal/store/store.go:700-915 | over every run in which chats are completed only after a send, as the two workers do, a snapshotted chat that was not sent to is still listed on the queued or dead item; so a delivered item was sent to every chat |
| ChatDelivery.RunKeepsOwed | internal/store/store.go:400-915 | every run in which chats are completed only after a send keeps that promise for all items |
| ChatDelivery.CompleteAllKeepsOwed | internal/store/store.go:700-755 | completing a chat that was sent forgets no other chat |
| Worker.Worker.SendOrdinary | internal/forwarder/worker.go:234-257 | whatever fails the promise is kept; if every wait is undisturbed, every answer an acceptance and every recording succeeds, every item of the round is delivered; whatever is refused, if no wait and no recording fails and no answer asks for a pause, a request goes out for each chat of each item |
| Worker.Worker.SendBatchToChat | internal/forwarder/worker.go:158-221 | a request goes out only with a slot of its own and reaches the chat only if accepted; waiting faults, answer and recording fault decide what is recorded, and a refusal is reported with the permanence and Retry-After of the answer and a retry time within the bounds of the backoff |
| Worker.Worker.SendToChat | internal/forwarder/worker.go:249-255 | if no trial of the chat fails, its batches move exactly its items past that chat; a refused batch keeps no other from being sent, unless it asks for a pause |
| Worker.Worker.Reserve | internal/forwarder/worker.go:159-174 | the reserve loop ends after at most three waits while other goroutines commit transactions, grants a slot unless the store fails or it is cancelled, and records one grant if and only if it reports one |
| Worker.Worker.RecordFailure | internal/forwarder/worker.go:193-220 | the failure is recorded as specified, permanent and with Retry-After exactly as Lark answered; the retry waits for Retry-After and for the capped backoff of each item, and no longer than Retry-After or the backoff of one of them with a fifth on top; a Retry-After stops the round |
| Worker.Worker.Round | internal/forwarder/worker.go:81-138 | of the first items that are due when the clock is read, the round takes up exactly the ordinary ones, and delivers all of them if no trial fails; if none asks for a pause all of them have their turn |
| WorkerSteps.Backoff | internal/forwarder/worker.go:274-293 | the delay is the base doubled per attempt, capped, plus at most a fifth, never above the cap |
| WorkerSteps.DoublingComposes | internal/forwarder/worker.go:281-287 | doubling composes, and one doubling adds the base once |
| WorkerSteps.MostAttempts | internal/forwarder/worker.go:275-280 | the attempt count is the largest in the batch |
| WorkerSteps.ItemChatIDs | internal/forwarder/worker.go:259-272 | the chats of an item, sorted, each once; the configured chat if there are none |
| WorkerSteps.GroupByChat | internal/forwarder/worker.go:238-248 | each chat is mapped to exactly the items that want it, in queue order |
| WorkerSteps.CompleteAllProgress | internal/store/store.go:700-755 | completing a batch removes the chat from exactly the batch's items and delivers those that lack no other |
| WorkerSteps.ForeignSound | internal/store/store.go:400-548 | transactions of other goroutines leave archived queue items and delivered states as the worker knows them |
| Batching.Formatter.Split | internal/forwarder/worker.go:299-314 | the batches concatenate to the items, none is empty, each fits or is a single item, none could take one item more; all fit if an empty line does |
| Batching.Formatter.GreedyUsesFewest | internal/forwarder/worker.go:299-314 | if dropping items from the ends never breaks the limit, no other cut into consecutive admissible batches is shorter |
| Batching.Formatter.LimitedFits | internal/forwarder/format.go:357-374 | the line produced for any item fits the limit as soon as an empty line does |
| Batching.Formatter.LimitedIsLargestCut | internal/forwarder/format.go:357-374 | if shorter cuts of a fitting line fit, an over-long line is cut at the largest length that fits |
| Batching.Formatter.FormatForLimit | internal/forwarder/format.go:357-374 | the binary search computes the specified line |
| Batching.TrimCutsWholeCharacters | internal/forwarder/format.go:577-589 | trimming valid UTF-8 gives valid UTF-8, and keeps the longest run of whole characters that leaves room for the ellipsis |
| Batching.TrimKeepsIff | internal/forwarder/format.go:577-589 | trimming is the identity exactly on what fits, except that a limit of three or less drops everything |
| Batching.Trim | internal/forwarder/format.go:577-589 | the cut loop computes the specified text |
| Batching.PrefixValidIff | internal/forwarder/format.go:584-588 | a proper prefix of valid UTF-8 is valid exactly if the next byte starts a character |
| Keys.NumberKeyRoundTrip | internal/store/store.go:1632-1663 | 8-byte keys and 64-bit numbers encode each other |
| Keys.NumberKeysOrdered | internal/store/store.go:1632-1633 | byte order of keys is numeric order |
| Keys.FirstKeyIsLeast | internal/store/store.go:1632-1633 | the first key of a bucket of sequences is that of the least sequence |
| Keys.TimeKeysOrderedIff | internal/store/store.go:1633-1639 | byte order of time keys is time order exactly for times on the same side of 1970 |
| Keys.IndexKeyRoundTrip | internal/store/store.go:1629-1639 | an index key gives back its expiry and its delivery |
| Keys.IndexKeysOrdered | internal/store/store.go:1629-1631 | the order of index keys is by expiry, then by delivery, and they are injective |
| Subscriptions.SubscriptionStore.RepositorySubscribers | internal/store/store.go:301-315 | the prefix scan returns, sorted and once each, exactly the chats whose keys extend the prefix, unless the bare prefix is itself a key |
| Subscriptions.SubscriptionStore.AddRepositorySubscription | internal/store/store.go:288-298 | adds exactly this pair, and refuses empty names |
| Subscriptions.SubscribersAreExact | internal/store/store.go:301-315 | the scan finds exactly the chats subscribed to the repository if its name is separate from every other |
| Subscriptions.NamesSeparateIff | internal/store/store.go:296-313 | two repositories can never share a key if and only if neither name continues the other with a NUL |
| Subscriptions.NulFreeNamesSeparate | internal/store/store.go:296-313 | names without NUL are always separate |
| Subscriptions.DeliveryTargets | internal/webhook/handler.go:177-194 | the default chat first, then every subscriber found, none twice |

## Left out

- HTTP servers, headers, signatures and tokens, response codes other than the 202, metrics, logging, configuration.
- The Lark, GitHub and MaxMind clients: their answers are inputs. Page walking in the audit client is part of what a fetch returns.
- JSON parsing and encoding: records and updates arrive parsed, sizes are unknown functions. Whether an empty line fits the configured message limit is a hypothesis of the batching results.
- Event text, rich text, card markdown and sanitizing; of `format.go` only trimming and fitting are modelled.
- bbolt pages and file sync, archive directories, temporary files, links and permissions: a transaction or a publish either happens or does not.
- `Enqueue`: no service path calls it; its effect on the dedupe index is covered by the lemmas about covered indexes.
- `ClaimSubscriptionReply` and the subscription reply, onboarding forms, login binding and validation slots, `waitOnboardingCallbackResult`, `MarkAccepted` and `Archive.Pending`: single guarded writes or polling without further state.
- Worker.Worker.Round: covers the ordinary items of a round; the endless loop of `Run`, its waits for new items and the onboarding messages are not modelled, onboarding items only as deletions.
- Worker.Worker.SendBatchToChat: wrap-around of time durations is not modelled; doubling stops at the cap long before it.
- CardWorker.CardWorker.SendGitlabPipeline: the loop over the chats of a pipeline item repeats that of `SendWorkflows`; a worker without Lark client fails every card item and is not modelled.
- A message or reaction that Lark created although the call reported failure is not represented; only stored IDs are.
- ChatDelivery.EveryChatAtLeastOnce: pipeline items can be drained unsent and onboarding items are deleted whole, so it speaks of neither.
- Store.Store.Open: items whose stored form cannot be parsed, and dead letters with the archived flag but without a state, are not restored.
- Batching.Formatter.LimitedIsLargestCut: needs that shorter cuts fit, because link rendering can make a shorter cut longer.
- Calls of the workers are interleaved with other goroutines between their steps, but with no second worker, which `AcquireConsumer` rules out.
