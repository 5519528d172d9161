# A verified model of the Kinesis client's lease protocol

`vmware-go-kcl-v2` lets many workers share the shards of a Kinesis stream. Who reads which shard is
settled by a lease protocol over DynamoDB conditional writes. This project models that protocol and
the parts of the library built on it, and proves what a stream consumer relies on: one live holder
per shard, no record skipped, parents before children, finished shards left alone, rebalancing that
comes to rest, and a rate limiter that keeps to its budget.

| File | What it holds |
|---|---|
| `LeaseTypes.dfy` | table rows, cached lease status, configuration, error results |
| `LeaseRules.dfy` | what each DynamoDB operation reads, requires and writes, as functions on rows |
| `Protocol.dfy` | the interleaved machine: every table call is split where others can intervene, any number of calls in flight, on any number of shards, with the consumers reading them |
| `MutualExclusion.dfy` | the lease discipline, the inductive invariant, at most one live holder |
| `Claims.dfy` | invariants of every run, and the reservation a steal claim makes |
| `Delivery.dfy` | no record skipped, and lineage order, with no assumption on clocks or exclusion |
| `FinishedRuns.dfy` | a row at `SHARD_END` when operations interleave: what keeps it there, and exactly what undoes it |
| `FinishedShards.dfy` | the same when each operation is one step: finished is final exactly if late renewals are harmless |
| `Scenarios.dfy` | concrete runs in which a hypothesis is dropped and a guarantee fails |
| `Partition.dfy`, `Checkpointer.dfy`, `RecordProcessor.dfy` | the cached `ShardStatus`, the DynamoDB checkpointer and the application's checkpointer, as classes |
| `Refinement.dfy` | the checkpointer's operations, undisturbed, are runs of the machine's steps |
| `Balance.dfy`, `Workers.dfy` | rebalancing arithmetic; the worker's shard sync, acquisition and stealing |
| `RateLimit.dfy` | the byte bucket and call window of the polling consumer |
| `Consumers.dfy` | both shard consumers, from the wait on the parent to the release of the lease |
| `ConsumerRuns.dfy` | what the consumers do is a run of the machine's steps |
| `Crew.dfy` | a worker with the consumers it runs: leases gained and lost |

`dafny verify dfyconfig.toml` checks everything.

## How the source is modelled

- DynamoDB is a store with atomic single-row reads, conditional puts and conditional updates; a
  request can also be dropped, or take effect with its answer lost. A missing attribute is `None`,
  and `<>` in a condition holds of a missing attribute.
- Kinesis is a growing, finally closed sequence of records per shard, numbered from 0. Sequence
  number strings are these numbers; `""` is `Unset` and `"SHARD_END"` is `ShardEnd`. Kinesis
  rejects `"SHARD_END"` as a starting sequence number.
- Times are integers, in nanoseconds where the rate limiter computes with them; 0 is Go's zero time.
  2,000,000 bytes a second is one byte per 500 ns, so `int(seconds * MaxBytesPerSecond)` is a
  division truncated toward zero.
- Go's random choices and map iteration orders are nondeterministic choices, so what is proved
  holds of every order.
- Code that updates fields or loops (checkpointer, worker, consumers, limiter) is a class whose
  methods are proved against functions on values; the runs and invariants are about those functions.

## What the proofs found

The runs named here are lemmas of `Scenarios.dfy` unless another module is given; each trace is
built step by step, and the theorem it limits is named with it.

- Limits of `MutualExclusion.AtMostOneHolder`. `CheckpointSequence` writes unconditionally: saved
  after the lease ran out, or built before and saved after the worker's own renewal, it leaves two
  live holders (`LateCheckpointBreaksExclusion`, `CheckpointAcrossRenewalBreaksExclusion`). So do a
  renewal that lands between the two halves of `releaseLease`, and a release between a renewal's
  put and its adoption by the cache (`RenewalAcrossReleaseBreaksExclusion`,
  `ReleaseAcrossRenewalBreaksExclusion`); a slow renewal overtaken by a later one
  (`OvertakenRenewalBreaksExclusion`); a fetch or a scan read before the worker's release and
  applied after it (`StaleFetchBreaksExclusion`, `StaleSyncBreaksExclusion`); and deleting the row
  (`DeletionBreaksExclusion`). Each breaks one clause of the lease discipline once.
- `FetchCheckpoint` refreshes no timeout while the row has no checkpoint, and the expiry of a claim
  is judged by the cached timeout; with stealing on, a worker with an old cache takes a live lease
  that nobody ever claimed (`StaleClaimExpiryBreaksExclusion`).
- Limits of "finished is final". The put in `GetLease` carries the cached checkpoint, and its
  condition does not mention the checkpoint in the table, so table checkpoints are not monotone.
  A renewal decided before the application's final checkpoint takes `SHARD_END` back, even under
  the full lease discipline (`RenewalUndoesShardEnd`). So does a renewal by a worker whose lease ran
  out while another worker finished and released the shard, with every operation uninterrupted;
  and that worker then owns the finished shard (`LateRenewalReopens`). Neither consumer tests its
  lease before renewing. With operations as single steps, a renewal of a finished shard is harmless
  exactly if it is refused (as when another worker's lease is live) or the row names the caller and
  its cache says `SHARD_END` (`FinishedShards.ActOnFinished`); a renewal under a live lease always
  is. When operations interleave, the end is kept while workers decide on a lease only under that
  same test and nobody checkpoints after nil (`FinishedRuns.EndIsKept`), and it is lost exactly
  when the row is deleted or a write lands that was built from a cache unaware of the end
  (`FinishedRuns.FinishedExactly`).
- `waitOnParentShard` stops waiting when the parent's row has no checkpoint, also when the parent
  is merely not checkpointed yet (`UnrecordedParentLetsChildPass`); this is the only gap in the
  lineage order of `Delivery.AncestorsFirst`.
- Under `LATEST` a consumer that stops before its first checkpoint leaves a hole
  (`LatestLeavesHole`); `Delivery.NoRecordSkipped` accounts for it by where the last such start began.
- The byte budget holds with the last two non-empty responses (`RateLimit.BytesAreBounded`), and
  with the last two of any size unless the last but one is empty
  (`RateLimit.LastTwoResponsesBound`); then it can fail (`RateLimit.EmptyResponseSkipsDebit`),
  because nothing is debited after an empty response.

Three more observations about the code, without a run of their own: only `ParentShardId` is
recorded, so a merge's second parent is never waited for; `ClaimShard` asks for `Checkpoint <>
SHARD_END` when its cache says `SHARD_END`, where its other branches ask for equality, yet the
condition it builds is false of a finished row in every branch
(`FinishedRuns.FinishedIsNeverClaimed`); and `syncLeases` passes over a row without an owner, so a
finished and released shard still counts, in `rebalance`, for the owner a worker has cached
(`Workers.Worker.SeenOwnersMeaning`).

## Model

| member | source | states |
|---|---|---|
| LeaseRules.LeaseConditionMeaning | clientlibrary/checkpoint/dynamodb-checkpointer.go:156-232 | the condition expression built from the row that was read holds of another row exactly when that row has the same owner and timeout (or, if the read lease was incomplete, no owner) and, for a claimant, still its claim |
| LeaseRules.LeaseExact | clientlibrary/checkpoint/dynamodb-checkpointer.go:134-249 | with no intervening write, on every row, `GetLease` succeeds if and only if no other worker's live claim reserves the shard and it is unowned, the caller's own, expired, or seen as claim-expired |
| LeaseRules.ClaimConditionMeaning | clientlibrary/checkpoint/dynamodb-checkpointer.go:394-445 | the condition of `ClaimShard` holds exactly of rows that agree with the cache on owner, timeout, parent and checkpoint (missing for an empty one; anything but `SHARD_END` if the cache says `SHARD_END`) and carry no claim |
| LeaseRules.ClaimExact | clientlibrary/checkpoint/dynamodb-checkpointer.go:389-448 | on a row with a checkpoint and with no intervening write, a claim succeeds if and only if the row is timed, unclaimed, unfinished and of the recorded parent, and then adds the claim and changes nothing else |
| Claims.RunsAreRegular | clientlibrary/checkpoint/dynamodb-checkpointer.go:198-274 | in every run a row with an owner has a timeout, and lease and checkpoint writes in flight carry no claim while a claim in flight demands an unclaimed row |
| Claims.LeaseExactOnReachableRows | clientlibrary/checkpoint/dynamodb-checkpointer.go:134-249 | on every reachable row uncontended `GetLease` is exact, and the condition it builds is true of the row it read |
| Claims.RowsCarryParent | clientlibrary/checkpoint/dynamodb-checkpointer.go:205-214 | in every run, whoever wrote it last, a row carries the parent recorded for its shard, and has none exactly if the shard has none |
| Claims.LeasedShardCanBeClaimed | clientlibrary/checkpoint/dynamodb-checkpointer.go:389-448 | in every run a leased, checkpointed, unfinished and unclaimed shard, a child or not, can be claimed by any worker: after its fetch the claim's condition holds and the put changes nothing but the claim |
| MutualExclusion.LeaseGranted | clientlibrary/checkpoint/dynamodb-checkpointer.go:234-246 | a lease put that lands, adopted or not, keeps every live holder and every lease not yet adopted backed by the row |
| MutualExclusion.DecisionIsSound | clientlibrary/checkpoint/dynamodb-checkpointer.go:142-232 | a put decided by `GetLease` can only land on the lease it read, which is the caller's own or has run out, or on an unowned row |
| MutualExclusion.LeaseStepKeepsSound | clientlibrary/checkpoint/dynamodb-checkpointer.go:134-448 | each of the 20 interleaved lease steps keeps the exclusion invariant and the soundness of all calls in flight |
| MutualExclusion.AtMostOneHolder | clientlibrary/checkpoint/dynamodb-checkpointer.go:134-305 | in every disciplined interleaved run, stealing off or on, two workers with a live cached lease on a shard are the same worker, and the row names it with a timeout still ahead |
| Claims.LeaseStepKeepsClaim | clientlibrary/checkpoint/dynamodb-checkpointer.go:144-154 | while a shard is reserved, every step except a put by the claimant or one that saw the claim expired, a checkpoint write or deletion leaves the row as it is, or at most drops the owner |
| Claims.ClaimReserves | clientlibrary/checkpoint/dynamodb-checkpointer.go:144-234 | over a whole run, from a claim that no lease call straddles, the claim stays and nobody acquires or renews the lease until one of those ends it |
| Delivery.LeaseStepKeepsSafe | clientlibrary/checkpoint/dynamodb-checkpointer.go:134-488 | no lease step, however raced, brings an unsafe checkpoint into the table, a cache or a call in flight |
| Delivery.StreamStepKeepsSafe | clientlibrary/worker/common-shard-consumer.go:79-183 | waiting, positioning, delivering and terminating keep deliveries without holes after the origin, and `ended` only for shards closed and delivered in full |
| Delivery.NoRecordSkipped | clientlibrary/worker/common-shard-consumer.go:79-112 | in every run, with no exclusion or clock assumption, a checkpoint recorded in the row, any cache or any pending write or refresh means every record from the origin up to it was delivered; `SHARD_END` means all were; consumers resume only after delivered records; under `TRIM_HORIZON` the origin is record 0 |
| Delivery.RunsAreInOrder | clientlibrary/worker/common-shard-consumer.go:115-137 | a shard whose wait ended, never at a parent without checkpoint, has no parent or one closed and delivered in full |
| Delivery.AncestorsFirst | clientlibrary/worker/common-shard-consumer.go:115-137 | along any lineage without such a gap, every ancestor is closed and all of its records are delivered before the first record of the youngest shard |
| Protocol.PollMeaning | clientlibrary/worker/common-shard-consumer.go:115-137 | a poll ends the wait if and only if there is no parent, the parent's checkpoint is `SHARD_END`, or its row records no checkpoint, and tells these apart |
| FinishedRuns.FinishedIsNeverClaimed | clientlibrary/checkpoint/dynamodb-checkpointer.go:389-448 | in no run does a claim change a finished row |
| FinishedRuns.LeaseStepKeepsEnd | clientlibrary/checkpoint/dynamodb-checkpointer.go:142-234 | a step that respects the end keeps the row finished and everything in flight harmless to it, and gives the shard to nobody |
| FinishedRuns.EndIsKept | clientlibrary/worker/worker.go:315-344 | in every interleaved run, from a finished row with nothing in flight against it: while workers decide on a lease only if `GetLease` refuses or the row read names them and their cache says `SHARD_END`, nobody checkpoints after nil and the row is not deleted, it stays finished and unclaimed and nobody new owns it |
| FinishedRuns.LiveRenewalRespectsEnd | clientlibrary/worker/polling-shard-consumer.go:309-324 | in a disciplined run the renewal of a worker whose lease was live when it read the row, and whose cache says `SHARD_END`, meets that test |
| FinishedRuns.StaleMeaning | clientlibrary/checkpoint/dynamodb-checkpointer.go:198-274 | a pending write would undo the end exactly if it was built, at its last decision or item before, from a cache that did not say `SHARD_END` |
| FinishedRuns.FinishedExactly | clientlibrary/checkpoint/dynamodb-checkpointer.go:198-274 | in every interleaved run, from a finished row that nothing in flight can undo, it stays finished if and only if it is not deleted and no write lands that was built since by a worker whose cache did not say `SHARD_END` at that time |
| FinishedShards.LeasedKeepsConsistent | clientlibrary/checkpoint/dynamodb-checkpointer.go:134-249 | an uninterrupted `GetLease`, on an unfinished shard or harmless to a finished one, keeps exclusion and everyone's knowledge of the end |
| FinishedShards.LiveRenewalIsHarmless | clientlibrary/worker/polling-shard-consumer.go:309-324 | renewing a finished shard under a live lease is harmless |
| FinishedShards.ActOnFinished | clientlibrary/worker/worker.go:315-344 | with operations as single steps, a step leaves a finished shard finished, unclaimed and owned by nobody new if and only if it is not a renewal, or one that is refused or whose caller the row names and whose cache says `SHARD_END` |
| FinishedShards.FinishedIsFinal | clientlibrary/worker/worker.go:315-344 | over whole histories, in which workers renew whether their lease is live or not, but checkpoint and reposition only under a live lease and never after nil: the shard stays finished, unclaimed and with nobody new if and only if every renewal of it is harmless |
| Scenarios.TraceIsRun | clientlibrary/checkpoint/dynamodb-checkpointer.go:134-448 | the step-by-step traces of the scenarios are runs, and disciplined runs when they have no breach |
| Scenarios.LateCheckpointBreaksExclusion | clientlibrary/checkpoint/dynamodb-checkpointer.go:252-274 | one checkpoint saved after its lease ran out, everything else disciplined, leads to two live holders |
| Scenarios.CheckpointAcrossRenewalBreaksExclusion | clientlibrary/checkpoint/dynamodb-checkpointer.go:252-274 | so does one checkpoint built before and saved after the worker's own renewal |
| Scenarios.RenewalAcrossReleaseBreaksExclusion | clientlibrary/worker/common-shard-consumer.go:61-68 | so does a renewal that lands between the two halves of a release |
| Scenarios.ReleaseAcrossRenewalBreaksExclusion | clientlibrary/worker/common-shard-consumer.go:61-68 | so does a release that falls between a renewal's put and the cache's adoption of it |
| Scenarios.OvertakenRenewalBreaksExclusion | clientlibrary/checkpoint/dynamodb-checkpointer.go:134-249 | so does a slow renewal that lands after a later one |
| Scenarios.StaleFetchBreaksExclusion | clientlibrary/checkpoint/dynamodb-checkpointer.go:277-305 | so does a fetch read before the worker's release and applied after it |
| Scenarios.StaleSyncBreaksExclusion | clientlibrary/checkpoint/dynamodb-checkpointer.go:471-484 | so does a scan read before the release and applied after it |
| Scenarios.DeletionBreaksExclusion | clientlibrary/checkpoint/dynamodb-checkpointer.go:308-318 | so does deleting the row of a leased shard |
| Scenarios.StaleClaimExpiryBreaksExclusion | clientlibrary/checkpoint/dynamodb-checkpointer.go:142-176 | with stealing on, so does judging a claim as expired on a timeout that the fetch did not refresh |
| Scenarios.RenewalUndoesShardEnd | clientlibrary/checkpoint/dynamodb-checkpointer.go:216-234 | a fully disciplined run in which a renewal takes the row back from `SHARD_END` |
| Scenarios.LateRenewalReopens | clientlibrary/worker/polling-shard-consumer.go:309-324 | a fully disciplined run of uninterrupted operations in which a renewal after the lease ran out takes a finished, released row back and owns it |
| Scenarios.UnrecordedParentLetsChildPass | clientlibrary/worker/common-shard-consumer.go:125-133 | a run in which a child's record is delivered and none of its parent's |
| Scenarios.LatestLeavesHole | clientlibrary/worker/common-shard-consumer.go:94-112 | a run under `LATEST` whose checkpoint covers a record nobody was given |
| Partition.ShardStatus.IsClaimRequestExpired | clientlibrary/partition/partition.go:89-96 | true exactly when the cached lease timeout is set and lies more than the claim timeout in the past |
| Partition.ShardStatus.SetLeaseOwner | clientlibrary/partition/partition.go:59-63 | changes the cached owner and nothing else |
| Partition.ShardStatus.SetCheckpoint | clientlibrary/partition/partition.go:71-75 | changes the cached checkpoint and nothing else |
| LeaseRules.LeaseCallExact | clientlibrary/checkpoint/dynamodb-checkpointer.go:134-249 | `GetLease` succeeds if and only if the table answers and the caller may have the lease; then the row names the caller, the new timeout, the cached checkpoint and the recorded parent, each missing exactly if there is none, and no claim, and the cache agrees; which error is returned when, and a failure changes nothing unless the answer was lost |
| Checkpointer.DynamoCheckpoint.PrepareLease | clientlibrary/checkpoint/dynamodb-checkpointer.go:142-232 | the branches of `GetLease` between read and put compute the decision the protocol's proofs are about; the item names the new owner, the new timeout, the cached checkpoint and the recorded parent, and no claim |
| Checkpointer.DynamoCheckpoint.GetLease | clientlibrary/checkpoint/dynamodb-checkpointer.go:134-249 | row, cached status and result are those of the exact lease call, for every fate of the two requests: on success the row holds owner, timeout, checkpoint and parent, each written out, and the cache the same; all other rows are untouched |
| Checkpointer.DynamoCheckpoint.CheckpointSequence | clientlibrary/checkpoint/dynamodb-checkpointer.go:252-274 | the row is replaced, whatever it holds, by the cached owner, timeout and checkpoint with the recorded parent, unless the request is dropped |
| Checkpointer.DynamoCheckpoint.FetchCheckpoint | clientlibrary/checkpoint/dynamodb-checkpointer.go:277-305 | refreshes the cache from the row, or gives up before refreshing anything when the row has no checkpoint |
| Checkpointer.DynamoCheckpoint.RemoveLeaseInfo | clientlibrary/checkpoint/dynamodb-checkpointer.go:308-318 | deletes exactly this shard's row |
| Checkpointer.DynamoCheckpoint.RemoveLeaseOwner | clientlibrary/checkpoint/dynamodb-checkpointer.go:321-341 | removes the owner if it is this worker, keeps every other attribute, and fails otherwise |
| Checkpointer.DynamoCheckpoint.ClaimShard | clientlibrary/checkpoint/dynamodb-checkpointer.go:389-448 | after the fetch, the claim is put if and only if its condition holds of the row; success exactly when both requests are answered and it held |
| Checkpointer.DynamoCheckpoint.SyncLeases | clientlibrary/checkpoint/dynamodb-checkpointer.go:450-488 | after a due and answered scan each cached shard whose row has owner and checkpoint has exactly these two, and its old timeout; every other shard, and all of them when the scan is not due or fails, is unchanged; the sync time moves even when the scan fails |
| Checkpointer.GroupByOwner | clientlibrary/checkpoint/dynamodb-checkpointer.go:367-385 | fails if and only if some unfinished shard has no owner; otherwise every unfinished shard is in its owner's list, once, and in no other list, and no list is empty |
| Checkpointer.DynamoCheckpoint.ListActiveWorkers | clientlibrary/checkpoint/dynamodb-checkpointer.go:361-386 | fails if and only if a due scan does, or afterwards an unfinished shard has no owner; owner and checkpoint of each shard are by then those of the row just scanned, where it has both, and the lists are by these owners |
| Checkpointer.ListsMeaning | clientlibrary/checkpoint/dynamodb-checkpointer.go:367-385 | a partition of the unfinished shards into lists holds each of them in the list of its cached owner, once, and nothing else |
| Balance.PartitionsExtend | clientlibrary/checkpoint/dynamodb-checkpointer.go:379-383 | appending a shard to its owner's list, or starting one, keeps the lists a partition |
| Balance.PartitionSizes | clientlibrary/checkpoint/dynamodb-checkpointer.go:361-386 | in a partition no list is empty and the sizes add up to the number of unfinished shards |
| RecordProcessor.RecordProcessorCheckpointer.Checkpoint | clientlibrary/worker/record-processor-checkpointer.go:70-79 | without a sequence number the shard becomes `SHARD_END`; the cache moves even if the write fails; the write replaces the row with the position, the cached owner and timeout and the recorded parent, and drops any claim |
| Refinement.GetLeaseRefines | clientlibrary/checkpoint/dynamodb-checkpointer.go:134-249 | `GetLease` with no other step in between, for every fate of its two requests and every advance of the clock, is a run of the machine's read, judge, decide, put and adopt steps |
| Refinement.ClaimShardRefines | clientlibrary/checkpoint/dynamodb-checkpointer.go:389-448 | so is `ClaimShard`, for every fate of its two requests, of the fetch and claim steps |
| Refinement.CheckpointRefines | clientlibrary/worker/record-processor-checkpointer.go:70-79 | so is an application checkpoint, whether its write arrives or not, of the set, build and save steps |
| Refinement.FetchRefines | clientlibrary/checkpoint/dynamodb-checkpointer.go:277-305 | so is a fetch: a row with a checkpoint refreshes checkpoint, owner and timeout, the last two where the row has them; any other row changes nothing |
| Refinement.SyncRefines | clientlibrary/checkpoint/dynamodb-checkpointer.go:471-484 | so is a scan: a row with owner and checkpoint replaces these two in the cache, and never the timeout |
| Refinement.ReleaseRefines | clientlibrary/worker/common-shard-consumer.go:61-75 | so is a release: the cached owner is cleared, then the worker's own name leaves the row, unless the request is dropped |
| Refinement.AcquireRefines | clientlibrary/worker/worker.go:309-351 | the event loop's acquisition of a shard is nothing, a fetch or the acquire step of the histories in which finished is final, according to the fate of its requests and a cached claim; only a put whose answer is lost is none of these |
| Workers.AcquireCallExact | clientlibrary/worker/worker.go:309-351 | the acquire step succeeds if and only if the table answers and the shard is not cached as own, unfinished after the fetch, not reserved by another's cached claim, and may be leased; a finished row is never touched |
| Workers.Worker.AcquireShard | clientlibrary/worker/worker.go:309-351 | does exactly that to the shard's row and cached status, and nothing to any other row |
| Workers.Worker.CountHeld | clientlibrary/worker/worker.go:300-305 | counts the unfinished shards cached as this worker's |
| Workers.Worker.AcquirePass | clientlibrary/worker/worker.go:299-370 | one pass gains at most one lease, only below the cap; each shard visited went through the acquire step, the rest is untouched, and a pass that gains nothing has visited every shard |
| Workers.Worker.AddPage | clientlibrary/worker/worker.go:486-501 | a page's new shards enter the cache fresh, with the recorded parent; known shards keep their status objects |
| Workers.Worker.GetShardIDs | clientlibrary/worker/worker.go:468-512 | succeeds if and only if every page does, and then has seen the union of all pages |
| Workers.Worker.SyncShard | clientlibrary/worker/worker.go:515-538 | on success a shard is cached if and only if it is on some page; survivors keep their status objects, a new shard is as listed and held by nobody; every shard on a page keeps its row, and a row is deleted exactly if its shard was cached, is on no page and the request gets through; a failure on any page removes nothing |
| Workers.Worker.RemoveVanished | clientlibrary/worker/worker.go:524-535 | removes exactly the vanished shards from the cache, and their rows where the request gets through |
| Balance.CountsSumToShards | clientlibrary/worker/worker.go:408-411 | the workers' counts add up to the number of shards |
| Balance.VictimExists | clientlibrary/worker/worker.go:421-449 | a worker below the average, counting itself if it owns nothing, implies another strictly above it, so the "not all shards are allocated" exit is never taken |
| Balance.WantsMoreMeaning | clientlibrary/worker/worker.go:408-436 | a worker steals if and only if there are more shards than owners, it is not at its cap, and one more shard for each worker counted, itself included, is not too many for all to have as many as it would |
| Balance.VictimMeaning | clientlibrary/worker/worker.go:438-444 | the victim is another worker, above the average counted without division, whom no other worker has more shards than |
| Balance.StealDrops | clientlibrary/worker/worker.go:415-463 | every steal takes from a worker with at least two more shards than the thief and lowers the sum of squared counts by at least two |
| Balance.StealsAreBounded | clientlibrary/worker/worker.go:381-464 | whoever steals in whatever order, N shards are stolen at most (N*N - N) / 2 times |
| Balance.StableIsBalanced | clientlibrary/worker/worker.go:415-436 | when nobody would steal, no cap binds and there are as many shards as workers, each worker holds at least N/W and at most N/W plus the remainder |
| Workers.Worker.CountShards | clientlibrary/worker/worker.go:408-411 | adds up the lists to the number of unfinished shards |
| Workers.Worker.FindFullest | clientlibrary/worker/worker.go:438-444 | whatever the map order, finds a fullest other worker above the average, or none if there is none |
| Workers.Worker.ChooseShard | clientlibrary/worker/worker.go:408-455 | chooses a shard if and only if this worker is below the average and its cap, and then one of a fullest other worker |
| Workers.Worker.PickShard | clientlibrary/worker/worker.go:384-455 | chooses on owners that a scan just answered overrides, row by row, and fails only if the sync fails or an unfinished shard has no owner; if these are the owners of all unfinished rows, the victim has at least two more rows than this worker |
| Workers.Worker.Rebalance | clientlibrary/worker/worker.go:381-464 | claims a shard only if a steal is due on the owners that a scan just answered overrides, row by row, and then exactly the chosen one, under the claim's condition, adding the claim and nothing else; if these are the owners of all unfinished rows, the victim has at least two more rows in the table than the thief; otherwise the table is untouched; an error leaves it untouched too, unless the answer of that one claim was lost |
| Workers.Worker.SeenOwnersMeaning | clientlibrary/worker/worker.go:384-407 | rebalance sees each unfinished shard under the owner its row names, if the scan is due and answered and the row has owner and checkpoint, and under the cached owner otherwise; a shard is unfinished by the same rule |
| Workers.StealsFromFuller | clientlibrary/worker/worker.go:415-449 | when the owners seen are those of all unfinished rows, a steal takes from a worker with at least two more unfinished rows in the table |
| RateLimit.PollingShardConsumer.constructor | clientlibrary/worker/polling-shard-consumer.go:136-140 | a full bucket, a full window, nothing read |
| RateLimit.PollingShardConsumer.CheckCoolOffPeriod | clientlibrary/worker/polling-shard-consumer.go:248-272 | refill up to the cap, then debit the previous response or refuse |
| RateLimit.PollingShardConsumer.CallGetRecordsAPI | clientlibrary/worker/polling-shard-consumer.go:274-307 | the limiter's fields and outcome are those of the call the runs are made of, with the response size summed over its records |
| RateLimit.CallMeaning | clientlibrary/worker/polling-shard-consumer.go:248-307 | when a call is refused and why: the bytes are out if less than one is left after a refill at 2,000,000 a second, capped at 10,000,000; the calls are out if all five of a window not older than a second are used; the cool-down is the previous response's size in seconds of refill, rounded up |
| RateLimit.CreditIsEarned | clientlibrary/worker/polling-shard-consumer.go:253-256 | the credit, a byte per 500 ns, is 2,000,000 bytes a second, truncated |
| RateLimit.BytesAdd | clientlibrary/worker/polling-shard-consumer.go:297-301 | the size of a response is the sum of the sizes of its records |
| RateLimit.BytesAreBounded | clientlibrary/worker/polling-shard-consumer.go:248-307 | at any point of any run the bytes returned are at most MaxBytes - 1, plus 2,000,000 per second since the first response, plus the last two non-empty responses |
| RateLimit.LastTwoResponsesBound | clientlibrary/worker/polling-shard-consumer.go:248-307 | the same bound with the last two responses of any size, whenever the last but one is not empty |
| RateLimit.EmptyResponseSkipsDebit | clientlibrary/worker/polling-shard-consumer.go:275-300 | a run of four responses, the last but one empty, that exceeds the bound with the last two |
| RateLimit.BucketBetween | clientlibrary/worker/polling-shard-consumer.go:253-270 | the bucket stays between 1 - S and MaxBytes, S the largest response |
| RateLimit.ByteRefusalsBounded | clientlibrary/worker/polling-shard-consumer.go:161-165 | after a byte refusal, each honoured sleep earns a second's worth of bytes, so refusals in a row are at most the seconds of debt |
| RateLimit.RefusalsAreBounded | clientlibrary/worker/polling-shard-consumer.go:147-187 | at most 1 + ceil(S / 2,000,000) local refusals in a row come between two GetRecords calls |
| RateLimit.RunsAreLogged | clientlibrary/worker/polling-shard-consumer.go:281-291 | every run's calls fall into windows more than a second apart, at most five in each |
| RateLimit.CallsAreSpaced | clientlibrary/worker/polling-shard-consumer.go:281-291 | calls 5 * (k + 1) apart in the order of issue are more than k seconds apart in time |
| RateLimit.RefusedAfterFive | clientlibrary/worker/polling-shard-consumer.go:281-291 | a call is refused for its count only if five were issued in the second before it |
| RateLimit.TenCallsASecond | clientlibrary/worker/polling-shard-consumer.go:281-291 | at most ten calls in any interval of one second |
| RateLimit.CallsSinceStart | clientlibrary/worker/polling-shard-consumer.go:136-140 | at most 5 * (floor(t) + 1) calls in the first t seconds |
| Consumers.LifeCycleMeaning | clientlibrary/worker/polling-shard-consumer.go:101-239 | the stages a processor goes through are exactly: nothing, or Initialize, then ProcessRecords any number of times, then at most one Shutdown, last |
| Consumers.ReachedDelivers | clientlibrary/worker/common-shard-consumer.go:139-183 | if each ProcessRecords continues where the one before stopped, the records delivered are consecutive, without a hole or a repeat |
| Consumers.DeliveredAdd | clientlibrary/worker/common-shard-consumer.go:139-183 | what a sequence of callbacks delivers is what its parts deliver: exactly the records of each ProcessRecords, in order |
| Consumers.ShardConsumer.WaitOnParentShard | clientlibrary/worker/common-shard-consumer.go:115-137 | the wait ends at the first poll that finds the parent finished, without checkpoint or unreadable, and only then |
| Consumers.ShardConsumer.GetStartingPosition | clientlibrary/worker/common-shard-consumer.go:79-112 | a recorded checkpoint wins over the configured initial position, which is passed on as the trim horizon, the latest record or the timestamp; and the cache is refreshed from the row |
| Consumers.ShardConsumer.ReleaseLease | clientlibrary/worker/common-shard-consumer.go:61-75 | the cached owner is forgotten, the row's owner removed if it is this worker, and one lease counted as lost |
| Consumers.ShardConsumer.Begin | clientlibrary/worker/polling-shard-consumer.go:111-131 | Initialize is called only after the wait is over and a position is found: after a checkpoint at record k the first record is k + 1, and without one the trim horizon, the latest record or the first at the timestamp; the only other outcomes are an error and, while the parent is unfinished, waiting |
| Consumers.ShardConsumer.PollingLoop | clientlibrary/worker/polling-shard-consumer.go:147-239 | the records answered in the turns the limiter let through reach the processor once each, in order, through refusals, throttling and retries; an exit comes from the last turn, which was answered, and for the cause that turn gives; no turn before it gave a cause |
| Consumers.ShardConsumer.TakeAnswer | clientlibrary/worker/polling-shard-consumer.go:156-237 | one answered call delivers its records behind the earlier ones; the shard's end leads to Shutdown(TERMINATE), a stop signal to Shutdown(REQUESTED), a failed renewal, another error or one throttled call too many to an error, and nothing else ends the loop |
| Consumers.ShardConsumer.PollingGetRecords | clientlibrary/worker/polling-shard-consumer.go:101-239 | the records delivered are the first, which is the one after the checkpoint, and the following without hole or repeat; the last turn let through was answered with the end of the shard if and only if the consumer exits with Shutdown(TERMINATE); likewise for a stop signal (REQUESTED), a failed renewal, another error, and more than MaxRetryCount throttled calls in a row; exactly one release |
| Consumers.ThrottlesMeaning | clientlibrary/worker/polling-shard-consumer.go:160-209 | the count of throttled calls in a row is that of the calls let through since the last one that was not throttled |
| Consumers.ShardConsumer.RefreshLease | clientlibrary/worker/fan-out-shard-consumer.go:94-107 | the renewal is the exact lease call; only a lease not acquired ends the consumer without error |
| Consumers.ShardConsumer.FanOutLoop | clientlibrary/worker/fan-out-shard-consumer.go:85-139 | across resubscriptions the records reach the processor once each, in order; the Shutdown is the one the first ending event calls for; the loop goes on past an event exactly if it is no stop, no closed shard, no failed renewal and no ended stream that cannot be resumed |
| Consumers.ShardConsumer.TakeTurn | clientlibrary/worker/fan-out-shard-consumer.go:88-137 | each event of the select loop continues, exits with or without error, or shuts down, exactly as it should |
| Consumers.ShardConsumer.FanOutGetRecords | clientlibrary/worker/fan-out-shard-consumer.go:48-139 | the same for fan-out: TERMINATE if and only if the last event taken closed the shard, REQUESTED if and only if it was a stop; a renewal that is refused ends it without error, any other failure of one with an error, and a stream that ends is resumed exactly behind a continuation; exactly one release |
| Consumers.RenewedMeaning | clientlibrary/worker/fan-out-shard-consumer.go:94-107 | along the events, a renewal succeeds if and only if it is answered and the worker may still have the lease, and then row and cache name it with the new timeout; no other event changes either |
| ConsumerRuns.LifeIsRun | clientlibrary/worker/common-shard-consumer.go:79-183 | any callbacks of a consumer from its starting position on, with its exit, are a run of the protocol's steps: the wait ends, `TakePosition` sets the first record, each ProcessRecords is a delivery, Shutdown(TERMINATE) ends the shard, and the consumer is gone exactly if it has returned |
| ConsumerRuns.PollingIsRun | clientlibrary/worker/polling-shard-consumer.go:101-239 | so whatever the polling consumer does is such a run, on every stream it can find |
| ConsumerRuns.FanOutIsRun | clientlibrary/worker/fan-out-shard-consumer.go:48-139 | and so is whatever the fan-out consumer does |
| Crew.GainedLessLost | clientlibrary/worker/worker.go:358-366 | over a worker's whole life, leases gained less leases lost are the consumers running |
| Crew.Crew.Acquire | clientlibrary/worker/worker.go:299-369 | a pass that gains a lease counts it and starts a consumer of that shard, which the worker then owns in cache and row; any other pass changes no count |
| Crew.Crew.RunPolling | clientlibrary/worker/polling-shard-consumer.go:101-239 | a consumer that returns has released one lease and leaves; one that has not returned stays |
| Crew.Crew.RunFanOut | clientlibrary/worker/fan-out-shard-consumer.go:48-139 | the same for a fan-out consumer |

## Left out

- FinishedShards.FinishedIsFinal: takes operations as single steps, and besides the harmless renewals it names it assumes what the README row lists (checkpoints and own fetches only under a live lease, none after nil, a claim judged on a fresh timeout). For interleaved operations see `FinishedRuns`.
- MutualExclusion.AtMostOneHolder: needs the lease discipline written out in `LeaseDisciplined`, which the library itself does not enforce; the scenarios show what happens without each clause. Clocks of different workers are one clock.
- Balance.StealsAreBounded: a steal is one transfer on accurate views; the claim, the owner's failed renewal and the take-over it consists of are proved separately, by `Claims.ClaimReserves` and `LeaseRules.LeaseExact`.
- RateLimit.BytesAreBounded: counts the last two non-empty responses; the last two of any size do under the condition of `RateLimit.LastTwoResponsesBound` and not in general.
- Consumers.ShardConsumer.PollingLoop: the renewal goroutine appears as the error it sends; its timer, and its interleaving with the loop, are left to the protocol's `StartLease` to `AdoptLease` steps.
- Refinement.AcquireRefines: a lease put whose answer is lost leaves row and cache apart; it is a step of the interleaved machine, not of the histories with operations as single steps.
- AWS SDK calls, credentials, endpoints, table creation and consumer ARN lookup: network plumbing.
- Timeouts as RFC 3339 text, and the errors of parsing them: timeouts are integers, compared for equality as the strings are.
- Floating-point rounding of elapsed seconds: the limiter's credit is computed on whole nanoseconds.
- De-aggregation of KPL records: treated as the identity, so records and bytes are those Kinesis returned.
- `shardStealInProgress` in rebalance: it rests on a cached `ClaimRequest` that nothing sets, so "one steal at a time" is not claimed.
- `PrepareCheckpoint`: it returns an empty object.
- Mutexes of the getters, loggers, metrics exporters, configuration builders, idle sleeps and backoff durations other than those of the limiter's refusals.
