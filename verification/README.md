# codeq: a verified model

codeq is a task queue with leases, retries, priorities and a dead-letter queue. It runs on Redis or
on an embedded ordered key-value store (Pebble), the latter optionally replicated by Raft. This
project models its stateful core in Dafny and proves what every run of it keeps.

Objects of the original that change in place are classes here (`Repository`, `ResultsService`,
`KeyedRepository`, `Coalescer`, `Log`, `Replica`, `Fsm`, `SeqCounter`, `LeaseTable`, `Reaper`,
`InMemoryLimiter`, `Server`, `Shard`, `Ring`, `Scheduler`); each of their methods is proved equal to a function on
values, and the laws are proved about those functions, over all runs where a law is about runs.

## The parts

**Task lifecycle on Redis** (`TaskTypes`, `RedisState`, `Lifecycle`, `Partition`, `Actions`, `Calls`,
`Runs`, `Leases`, `ClaimOrder`, `Retries`, `Records`, `Answers`, `Boundaries`, `TaskRepository`,
`BatchSubmit`, `Idempotency`, `Serving`). Every repository call is shown to be a sequence of nine kinds of atomic actions, each of
which keeps one joint invariant. From that follow, for every run of calls: a task is in exactly one
queue position or in none when it is done; a finished task never comes back; a record disappears only
through a cleanup 24 hours after its last touch; leases of different claims never overlap; claims serve
the highest priority first and each list first in, first out; retries are bounded and attempts counted
exactly; requests and results never change; a delayed task is not handed out before its time; a claim
serves only its own tenant. Where a call breaks the invariant the exact condition is given.
`Answers` says of every call when it is turned down and what it stores, field by field; `Serving` runs
calls on the objects and shows that to be a run of the model.

**Ordered store and replication** (`Bytes`, `KeyValue`, `Keys`, `Markers`, `PendingSeq`, `Failover`,
`LeaseKeys`, `LogStore`, `Snapshot`, `Replication`, `GroupCommit`, `LeaseReaper`). Byte order of the keys
is the order the queues need, range bounds are exact, what recovery reads back from keys and when, when
the order survives a failover, snapshots round-trip and truncation is noticed, replicas of one log
converge through crashes, replays and snapshots, group commit is sequential commit, and the reaper drains expired leases, after a restart those
of exactly the queues whose keys recovery can read.

**Rate limiting** (`TokenBucket`). The window bound, the meaning of the retry hint, exactly when eviction
and key expiry are invisible, and that the Go limiter and the Lua script decide alike.

**Sharding** (`Migration`, `HashRing`). A migration loses nothing, except that between two names of one
shard the delayed tasks are lost; the exact order of migrated lists; the ring's owner is unique and
adding a node moves keys only to it.

## Reading the model

- One call is one atomic step. Round trips of one call are not interleaved with those of another.
- Answers the environment gives (range queries, random samples, map iteration order, Bloom filters,
  backoff delays, the reconcile throttle, raft outcomes) are parameters, constrained only by what the
  backend promises. The clock counts whole seconds on Redis and does not go back, except in the
  rate-limiter equivalence, where it may.
- Calls to the lifecycle are `Permitted` when ids are fresh, worker ids are not empty, leases are
  positive, commands hold no colon, and the ghost filter reports no stored task. `Boundaries` says for
  most of these what exactly goes wrong without them.
- Task, worker, node and bucket ids are numbers where the code only compares them. Where they are part of
  a stored key (`Keys` to `LeaseReaper`) they are bytes.
- A fetch of several tasks fails as a whole when any of them is missing, because the pipeline then
  returns the nil error; `SubmitBatch` therefore falls back to one-by-one submission.
- Where code and comments disagree the model follows the code: a Redis claim and a nack both count an
  attempt; `CommitBatch` errors on the replicated path do not mean the write is absent; a migration
  moves pending and delayed tasks before it refuses because of work in progress; lists longer than a
  batch do not keep their order when migrated.

## Model

| member | source | states |
|---|---|---|
| TaskTypes.NormalizePriority | internal/repository/task_repository.go:198-206 | the result is a valid priority, and a valid one is kept |
| TaskTypes.QueueBaseSeparates | internal/shard/key.go:43-62 | for commands without a colon two queue keys agree only for the same tenant and the same command up to case |
| TaskTypes.QueueBaseIff | internal/shard/key.go:43-62 | for commands without a colon two queue keys are the same if and only if the tenants are and the commands differ at most in ASCII letter case |
| Boundaries.QueueKeysCollide | internal/shard/key.go:43-62 | a command with a colon and another command's tenant share a queue key |
| Boundaries.PopIsolated | internal/shard/key.go:43-62 | a claim attempt that returns a task returns one of the claimed tenant and command if and only if the command holds no colon |
| RedisState.LPush | internal/repository/task_repository.go:405-410 | the id is added to one pending list and nothing else changes place |
| RedisState.LRem | internal/repository/task_repository.go:1422-1424 | the id leaves one pending list and nothing else changes place |
| Partition.EnqueueInv | internal/repository/task_repository.go:362-442 | an enqueue of a fresh id keeps the joint invariant, delayed or not |
| Partition.MoveOneInv | internal/repository/task_repository.go:607-764 | moving a due task to its pending list keeps the joint invariant |
| Partition.NackApplyInv | internal/repository/task_repository.go:1036-1119 | a nack keeps the joint invariant, on the retry and on the dead-letter branch |
| Partition.HeartbeatInv | internal/repository/task_repository.go:925-967 | a heartbeat of the owner keeps the joint invariant |
| Partition.AbandonInv | internal/repository/task_repository.go:970-1018 | an abandon by the owner keeps the joint invariant |
| Partition.SubmitInv | internal/services/results_service.go:43-187 | an accepted submission keeps the joint invariant |
| Partition.CleanOneInv | internal/repository/task_repository.go:1402-1445 | deleting a task with the location hint keeps the joint invariant: no queue keeps its id |
| Partition.PopScriptTakesTop | internal/repository/task_repository.go:496-514 | when no pending id is in progress the claim script pops exactly the oldest id of the highest non-empty priority |
| Partition.TakeInv | internal/repository/task_repository.go:870-910 | handing out the popped task keeps the joint invariant |
| Actions.ActEffect | internal/repository/task_repository.go:362-1119 | every atomic action keeps the joint invariant, changes at most its subject's record and place, and puts the subject where its new record says |
| Actions.ActAllInv | internal/repository/task_repository.go:362-1119 | the joint invariant holds after every sequence of actions |
| Answers.EnqueueAnswer | internal/repository/task_repository.go:362-450 | the stored record field by field; with a future time it waits for it, else it is pending at once at the back of its own list; in one place only, nothing else changes |
| Answers.NackAnswer | internal/repository/task_repository.go:1021-1119 | each error and its condition; an accepted nack ends failed in the DLQ if and only if one more attempt reaches the limit, else pending in the delayed set for the clipped delay, and the answer says which |
| Answers.RepairAnswer | internal/repository/task_repository.go:516-605 | of a sample exactly the tasks whose lease has run out leave progress, with one more attempt, failed if and only if that reaches the limit |
| Answers.SweepRepairs | internal/repository/task_repository.go:516-605 | a claim that repairs takes a sampled task with an expired lease out of progress before it pops |
| Answers.SweptAnswer | internal/repository/task_repository.go:607-686 | a due task becomes pending at the back of the list of its own queue and priority |
| Answers.HeartbeatAnswer | internal/repository/task_repository.go:925-967 | each error and its condition; the record and a live lease run for the extension from now |
| Answers.AbandonAnswer | internal/repository/task_repository.go:970-1019 | each error and its condition; the task is pending again at the back of its list, no attempt counted |
| Answers.SubmitAnswer | internal/services/results_service.go:141-187 | the result is stored and the task finished with the submitted status, in no queue, without lease |
| Answers.CleanupAnswer | internal/repository/task_repository.go:1318-1458 | exactly the listed tasks outside the filter are gone, with retention, lease and places; all others and all results stay |
| Calls.TryPopTakesTop | internal/repository/task_repository.go:796-913 | one command of a claim takes the oldest id of the highest non-empty priority, or leaves everything alone when there is none |
| Calls.StepPerforms | internal/repository/task_repository.go:766-923 | every permitted call does exactly what its list of atomic actions does |
| Calls.RunPerforms | internal/repository/task_repository.go:362-1458 | every run of permitted calls does exactly what its list of atomic actions does |
| Calls.SweepsCompose | internal/repository/task_repository.go:766-800 | the sweeps of a claim run command by command in the order listed |
| Serving.Scheduler.Serve | internal/repository/task_repository.go:766-1458 | a call served by the objects is the step of the model |
| Serving.Scheduler.ServeAll | internal/repository/task_repository.go:766-1458 | serving any permitted calls is the run of the model and keeps the joint invariant |
| Runs.PartitionOverRuns | internal/repository/task_repository.go:362-1458 | in every reachable state an unfinished task occupies exactly one queue position, a finished or deleted one none, and record, position, status, owner and lease agree |
| Runs.NoResurrection | internal/repository/task_repository.go:362-1458 | after a task is completed or failed no run of calls changes its record except by deleting it, nor puts it back into a pending, delayed or in-progress queue |
| Runs.TerminalRejects | internal/services/results_service.go:60-67 | a second submission or nack of a terminal task is rejected and changes nothing |
| Runs.NoLoss | internal/repository/task_repository.go:1318-1458 | a record disappears in a run only at a cleanup whose bound is 24 hours or more after the task's last touch |
| Leases.LeaseShields | internal/repository/task_repository.go:516-605 | while a lease lives, no action except the holder's, an anonymous submission or a cleanup touches record or lease |
| Leases.ClaimGrantsLease | internal/repository/task_repository.go:766-923 | a claim returns a task only when no live lease for it exists, and then holds it for the lease time |
| Leases.HolderKeepsTask | internal/repository/task_repository.go:516-605 | any run of other calls that stays within the lease leaves the holder's record and lease unchanged |
| Leases.LeasesNeverOverlap | internal/repository/task_repository.go:766-923 | a second claim of the same task happens only after the first lease has run out, unless the holder, an anonymous submission or a cleanup released it |
| ClaimOrder.ClaimReturnsNext | internal/repository/task_repository.go:766-923 | a claim returns the pop end of the highest non-empty priority of the first command with work, and nothing exactly when all listed lists are empty |
| ClaimOrder.EnqueuedBehind | internal/repository/task_repository.go:405-410 | a task put into a list is behind everything already there |
| ClaimOrder.NoOvertaking | internal/repository/task_repository.go:496-514 | as long as a task ahead in its list stays there, no run hands out the one behind it |
| Retries.BoundedRetries | internal/repository/task_repository.go:1036-1119 | a task nacked n times has at least 2n attempts, n is at most half its limit rounded up, at that many it is in the dead-letter set, and it is there only if its attempts reach the limit |
| Retries.AttemptsExact | internal/repository/task_repository.go:870-1119 | in any run after its enqueue a task's attempts are exactly its claims and its nacks together |
| Retries.DeadOnlyWhenSpent | internal/repository/task_repository.go:1036-1106 | in any run a task is in the dead-letter set only if its claims and nacks together reach its limit |
| Records.RequestKept | internal/repository/task_repository.go:362-1458 | in any run a stored task still carries command, payload, normalized priority, webhook, tenant and creation time of its enqueue |
| Records.ResultIsFinal | internal/services/results_service.go:43-187 | an accepted submission stores exactly what was submitted, and no later run changes it |
| Records.EnqueueWaits | internal/repository/task_repository.go:405-410 | an enqueue with a future time waits in the delayed set for exactly that time |
| Records.NackWaits | internal/repository/task_repository.go:1096-1119 | a nack short of the limit waits for its delay, not less than zero |
| Records.NotBeforeItsTime | internal/repository/task_repository.go:607-764 | a waiting task is neither claimed nor changed by any run that stays before its time, cleanup aside |
| Records.DueIsSwept | internal/repository/task_repository.go:688-764 | once due it is made pending by the sweeps of the next claim on its command, in the tenant-less queue as in the claimed tenant's, if no more tasks are due there than a sweep takes |
| Records.ClaimReturnsRecord | internal/repository/task_repository.go:870-910 | the task a claim returns is the stored record, in progress, owned by the caller until now plus the lease |
| Records.TenantIsolation | internal/repository/task_repository.go:766-910 | after any run a claim returns only a task of the tenant it names and, up to case, of a command it lists |
| Records.HeartbeatRenews | internal/repository/task_repository.go:925-967 | a heartbeat renews a live lease for the extension and does not revive one that has run out |
| Boundaries.AbandonSafe | internal/repository/task_repository.go:970-1018 | an abandon keeps the invariant and revives no finished task if and only if it is not called without a worker on a task that is not in progress |
| Boundaries.AnonymousNack | internal/repository/task_repository.go:1021-1116 | a nack without a worker keeps the invariant, succeeds if and only if the task is in progress, ends its lease then, live or not, and else changes nothing |
| Boundaries.HeartbeatSafe | internal/repository/task_repository.go:925-967 | a heartbeat keeps the invariant if and only if it is not called without a worker on a task that is not in progress |
| Boundaries.LegacySweepSafe | internal/repository/task_repository.go:607-686 | the sweep of the tenant-less queue places a due task correctly if and only if the swept command with the task's tenant names the task's own queue |
| Boundaries.GhostFilterSafe | internal/repository/task_repository.go:843-850 | a claim attempt keeps the invariant if and only if the ghost filter does not report the stored task it pops first; otherwise that task is lost: still stored and pending, and in no queue |
| TaskRepository.Repository.EnqueueWithId | internal/repository/task_repository.go:362-442 | writes record, queue entry and retention score as the lifecycle's enqueue |
| TaskRepository.Repository.MoveDueDelayed | internal/repository/task_repository.go:607-764 | the loop over due ids moves each as the lifecycle does |
| TaskRepository.Repository.NackTask | internal/repository/task_repository.go:1021-1119 | checks owner and status, then retries or dead-letters; terminal if and only if one more attempt reaches the limit, and the delay it answers |
| TaskRepository.Repository.CountAttempt | internal/repository/task_repository.go:1039-1106 | the defaulted limit, the counted attempt, and failed in the DLQ if and only if the limit is reached |
| TaskRepository.Repository.RequeueExpired | internal/repository/task_repository.go:516-605 | finds the sampled ids without a lease key and nacks each, dropping those without a task in progress |
| TaskRepository.Repository.RunClaimScript | internal/repository/task_repository.go:496-514 | pops once per priority list, highest first, skipping ids already in progress |
| TaskRepository.Repository.TryPopMulti | internal/repository/task_repository.go:796-913 | pops until an id has a record, cleaning up ghosts, at most the inspect limit |
| TaskRepository.Repository.ClaimTask | internal/repository/task_repository.go:766-923 | sweeps every command, then takes the first task of the first command that has one |
| TaskRepository.Repository.HeartbeatTask | internal/repository/task_repository.go:925-967 | extends lease and record of the owner, errors otherwise |
| TaskRepository.Repository.AbandonTask | internal/repository/task_repository.go:970-1018 | puts an owner's task back into its pending list, errors otherwise |
| TaskRepository.Repository.CleanupAged | internal/repository/task_repository.go:1318-1458 | deletes the listed tasks the cleanup filter does not skip |
| TaskRepository.Repository.RemoveTask | internal/repository/task_repository.go:1402-1427 | deletes record, retention score, lease and every queue entry of one task, the pending list only when the hint allows it |
| TaskRepository.Repository.SaveRecord | internal/repository/result_repository.go:74-112 | stores a result and the task's result key, or reports a missing task |
| TaskRepository.Repository.UpdateTaskOnComplete | internal/repository/result_repository.go:172-205 | completes the record and takes the task out of progress, or reports a missing task |
| BatchSubmit.EachIsRun | internal/services/results_service.go:43-187 | submitting items one by one is a run of submit calls |
| BatchSubmit.CheckMeans | internal/services/results_service.go:43-155 | a submission passes if and only if the task is stored and in progress, no two workers differ, and it is a completion with a result or a failure with an error that is not blank; each rejection has its own reason |
| BatchSubmit.PhasesAreSequential | internal/services/results_service.go:202-356 | saving all results and then completing all tasks equals doing both per item, for distinct ids |
| BatchSubmit.BatchRefinesSubmit | internal/services/results_service.go:202-356 | the batched path gives the same data, responses and callbacks as one-by-one submission if and only if no item repeats the id of an earlier accepted one |
| BatchSubmit.ResultsService.SubmitTask | internal/services/results_service.go:43-187 | accepted if and only if acceptable, each error with its condition; stores the result, finishes the task, hands over one callback; a rejection changes nothing |
| BatchSubmit.ResultsService.CheckItems | internal/services/results_service.go:239-299 | collects the accepted items with their indexes and answers the rejected ones in place |
| BatchSubmit.ResultsService.SubmitBatch | internal/services/results_service.go:202-356 | batched path or fallback; one response per item in order, the record for an acceptable item and the reason for any other |
| Idempotency.FilterIndependent | internal/repository/task_repository.go:301-360 | whatever the Bloom filter answers, the call does what it would do without it, up to the choice of the fresh id, and never ends in a conflict |
| Idempotency.KeyedAnswer | internal/repository/task_repository.go:301-358 | existing if and only if the key is live and its task stored; a fresh task is stored, in exactly one queue position, and no other task changes |
| Idempotency.OneTaskPerKey | internal/repository/task_repository.go:301-360 | in any run, two stored tasks created under one key within its retention are the same task |
| Idempotency.RepeatReturnsExisting | internal/repository/task_repository.go:301-360 | while a key's task is stored and the key lives, a further enqueue returns that task and changes nothing |
| Idempotency.SameKeySameTask | internal/repository/task_repository.go:301-358 | after an enqueue under a key and any calls, another enqueue under it returns the same task while that is stored, within 24 hours |
| Idempotency.FreshStaysStored | internal/repository/task_repository.go:301-358 | in any run every task returned as fresh is stored until a cleanup lists it |
| Idempotency.KeyedRepository.EnqueueOnce | internal/repository/task_repository.go:301-360 | a fresh task is stored as returned, carries the request, and its key stands for it for 24 hours; an existing one is the stored task of the key and nothing changes |
| Bytes.BigEndianOrder | internal/repository/pebble/keys.go:72-76 | fixed-width big-endian numbers sort as numbers, and on a tie what follows decides |
| Keys.PrefixUpper | internal/repository/pebble/keys.go:194-206 | the in-place loop computes the least key above all keys with the prefix, or none when all bytes are 0xff |
| Keys.PrefixRangeExact | internal/repository/pebble/keys.go:194-206 | the range of a prefix holds exactly the keys with that prefix, for every prefix |
| Keys.PendingOrder | internal/repository/pebble/keys.go:105-115 | pending keys of a queue sort by priority byte, then sequence number, then id |
| Keys.PendingPrioExact | internal/repository/pebble/keys.go:119-126 | the scan of one priority meets exactly the queue's pending keys of that priority |
| Keys.ScanIsFifo | internal/repository/pebble/keys.go:102-126 | the first key of a priority scan has the least sequence number of that priority |
| Keys.ParsePendingKey | internal/repository/pebble/keys.go:210-219 | the backward loop returns what follows the last slash |
| Keys.ParseFindsId | internal/repository/pebble/keys.go:210-219 | a pending key gives its id back if and only if the id holds no slash |
| Keys.DelayedUpToExact | internal/repository/pebble/keys.go:156-163 | the due scan meets exactly the entries up to the score, and nothing when the bound wraps at the largest 64-bit score |
| Keys.QueuesSeparate | internal/repository/pebble/keys.go:98-100 | with slash-free segments a key of one queue lies under another queue's base only for the same command and tenant segments |
| Keys.CmdSegIff | internal/repository/pebble/keys.go:67-69 | commands share a segment if and only if they differ at most in ASCII letter case |
| Keys.EmptyTenantCollides | internal/repository/pebble/keys.go:61-66 | the missing tenant and the tenant "_" share their queues |
| Markers.MarkerOnceIff | internal/repository/pebble/keys.go:98-100 | with slash-free segments a marker occurs in a queue's base if and only if a segment is the marker's word |
| PendingSeq.ReadsBackExactly | internal/repository/pebble/db.go:211-241 | recovery reads every sequence number of a queue back if and only if the marker does not occur in the queue's base |
| PendingSeq.PendingOnceIff | internal/repository/pebble/db.go:221-230 | with slash-free segments that is the case if and only if neither segment is "pending" |
| PendingSeq.EnqueueAfterRecovery | internal/repository/pebble/db.go:206-241 | a task enqueued after recovery sorts behind every task already pending at its priority |
| Failover.BehindIff | internal/raft/db.go:449-487 | under replication a task enqueued by a replica sorts behind every stored one, whatever its id, if and only if that replica's own counter is at least every stored number |
| Failover.RunFifo | internal/raft/db.go:449-452 | a run in which every enqueue is led by such a replica keeps first in, first out |
| Failover.LeaderCovers | internal/raft/db.go:449-452 | a leader whose counter covers the store keeps covering it while it alone enqueues |
| Failover.FailoverFifo | internal/raft/db.go:281-291 | a failover keeps first in, first out if the new leader opens its store after it has applied every entry of the old one |
| Failover.FailoverOvertakes | internal/raft/db.go:288-288 | two replicas opened on an empty store: after n tasks of the first, each of the first n - 1 tasks of the second overtakes the last of the first |
| PendingSeq.EarlyMarkerOvertakes | internal/repository/pebble/db.go:211-241 | with the tenant "pending" recovery reads a constant, and a new task overtakes one with a larger number |
| PendingSeq.SeqCounter.Recover | internal/repository/pebble/db.go:211-241 | the scan keeps the largest number it reads |
| PendingSeq.SeqCounter.Next | internal/repository/pebble/db.go:206-206 | the next number is larger unless the 64-bit counter wraps |
| LogStore.IndexOfKey | internal/raft/log_store.go:44-60 | the index of a key and the key of an index are inverse |
| LogStore.LogKeyOrder | internal/raft/log_store.go:44-49 | log keys sort by index |
| LogStore.IncAddsOne | internal/raft/log_store.go:172-177 | the carry adds one, and wraps to zero at the largest number |
| LogStore.IncrementSuffix | internal/raft/log_store.go:172-177 | the in-place carry loop adds one to the suffix and leaves the prefix |
| LogStore.DropEntries | internal/raft/log_store.go:161-179 | the range delete removes exactly the indexes min to max and nothing outside the log, or nothing when max is the largest index |
| LogStore.Log.FirstIndex | internal/raft/log_store.go:80-94 | the least stored index, 0 for an empty log, an error only for a malformed key |
| LogStore.Log.LastIndex | internal/raft/log_store.go:97-111 | the greatest stored index, 0 for an empty log, an error only for a malformed key |
| LogStore.Log.GetLog | internal/raft/log_store.go:116-126 | the stored entry or the not-found answer |
| LogStore.Log.StoreLogs | internal/raft/log_store.go:140-156 | the batch is added to the log, later entries winning, and nothing else changes |
| LogStore.Log.DeleteRange | internal/raft/log_store.go:161-179 | min above max is refused; else exactly the range goes, or nothing when max is the largest index |
| Snapshot.NextTokenIff | internal/raft/snapshot.go:145-172 | a token is read exactly when the stream starts with that entry's bytes |
| Snapshot.ParseComplete | internal/raft/snapshot.go:145-184 | every written body is read back, whatever follows it |
| Snapshot.ParseSound | internal/raft/snapshot.go:145-184 | what is read to its end starts with the body of the entries read |
| Snapshot.AcceptedIff | internal/raft/snapshot.go:115-191 | exactly the streams that start with a written snapshot are accepted |
| Snapshot.TruncationRejected | internal/raft/snapshot.go:115-191 | a snapshot cut short anywhere, its header included, is rejected |
| Snapshot.RoundTrip | internal/raft/snapshot.go:56-191 | a snapshot read into any store gives it exactly the source's state and leaves the rest of the store alone |
| Snapshot.WriteSnapshot | internal/raft/snapshot.go:56-110 | writes magic, version, the entries in key order and the end tag; fails exactly when a key or value is too long |
| Snapshot.Replica.ReadEntries | internal/raft/snapshot.go:139-190 | all entries on success; on a fault the full batches of 1024 before it |
| Snapshot.Replica.ReadSnapshot | internal/raft/snapshot.go:115-191 | a bad header changes nothing; else the state is wiped and replaced, by the full batches of 1024 only when the stream is malformed |
| Replication.Fsm.Apply | internal/raft/fsm.go:43-62 | a command's batch is applied so that the last write of every key wins and other keys stay; anything else changes nothing; failure only for a malformed batch |
| Replication.BatchDecides | internal/raft/fsm.go:43-62 | a batch decides every key it writes whatever was there, and leaves the rest |
| KeyValue.BatchLastWriter | internal/raft/fsm.go:43-61 | after a batch a key has the value of its last put, is absent if a delete is last, and is as before if not written |
| Replication.FoldLastWriter | internal/raft/fsm.go:43-61 | in the state of a log every written key is what its last write in any committed batch left |
| Replication.FoldUnwritten | internal/raft/fsm.go:43-61 | a key that no committed batch writes is absent |
| Replication.ReplayAbsorbsPrefix | internal/raft/fsm.go:43-62 | replaying a log over a store that already holds a prefix of it gives what applying it once gives |
| Replication.ConvergingApply | internal/raft/fsm.go:43-62 | applying the next entry keeps a store on its way to the log's state |
| Replication.ReplayConverges | internal/raft/fsm.go:20-62 | replay from the start over any leftovers of the same log converges |
| Replication.RestoreConverges | internal/raft/fsm.go:76-82 | a restored snapshot converges, even one taken in the middle of a replay |
| Replication.StepInv | internal/raft/fsm.go:11-30 | every cluster event keeps the invariant |
| Replication.Convergence | internal/raft/fsm.go:11-30 | in every run with crashes to any earlier store, replays, snapshots, installs and broken-off restores, a replica that has applied the whole committed log holds exactly its state |
| Replication.CaughtUpValues | internal/raft/fsm.go:43-61 | in every run a replica that has applied the whole log has at every state key what the last committed write of that key left |
| Replication.RunLog | internal/raft/fsm.go:43-61 | the log of a run is exactly what was committed, in order |
| Replication.CatchUp | internal/raft/fsm.go:43-61 | applying the entries it lacks brings any complete replica to the end of the log and to its state |
| Replication.CatchingUp | internal/raft/fsm.go:11-30 | applying the rest of the log brings any such replica to the state of the log |
| Replication.ReplayShowsLaterState | internal/raft/fsm.go:43-62 | while replaying, a replica can hold a state of no log prefix it has applied |
| GroupCommit.MergeIsSequence | internal/repository/pebble/db.go:381-407 | committing the merge equals committing its batches one after the other |
| GroupCommit.MergeIsInTurn | internal/repository/pebble/db.go:380-409 | committing the merge is committing its batches in order |
| GroupCommit.RoundShape | internal/repository/pebble/db.go:362-412 | a round takes a run of the queue's front, merges at most the maximum, and includes all or none of the merge |
| GroupCommit.RoundCommits | internal/raft/db.go:634-709 | the store after a round is that of sequential commits of the included requests |
| GroupCommit.ExactCommits | internal/repository/pebble/db.go:362-412 | with exact answers the store holds exactly the requests told they are done, in order |
| GroupCommit.Coalescer.Submit | internal/repository/pebble/db.go:333-350 | queues at the end, or sees the stop signal after shutdown |
| GroupCommit.Coalescer.Drain | internal/repository/pebble/db.go:387-404 | merges the front until the maximum, the empty queue or a batch that does not merge |
| GroupCommit.Coalescer.Round | internal/raft/db.go:634-709 | one round: one answer to all merged requests (done, failed or not leader), their writes in order exactly when they are in the log, an error for one that does not merge, earlier answers kept |
| GroupCommit.Coalescer.LocalRound | internal/repository/pebble/db.go:362-412 | with at most 64 merged: on success all are told done and their batches are in the store in order, else all are told failed and nothing is written; answers stay exact |
| GroupCommit.Coalescer.ReplicatedRound | internal/raft/db.go:634-709 | with at most 128 merged: a leader's written group is told done and written, without leadership all get that error and nothing is written; answers stay exact if and only if no merged group was reported failed by a log that kept it |
| GroupCommit.Coalescer.Close | internal/repository/pebble/db.go:366-377 | every queued request is answered with the closed error |
| LeaseReaper.VisitSafe | internal/repository/pebble/reaper.go:172-276 | the four outcomes of a visit and when each happens; a task taken out of progress has one more attempt and is only in the DLQ if that reaches the limit, else only in the delayed queue at the visit's time plus the delay; no other task is touched |
| LeaseReaper.SweepCounts | internal/repository/pebble/reaper.go:165-204 | a failure-free sweep leaves exactly a batch fewer expired entries, none when they fit |
| LeaseReaper.Drain | internal/repository/pebble/reaper.go:165-204 | as many failure-free sweeps as the expired entries fill batches clear all of them, leave no task of theirs in progress and touch no other |
| LeaseKeys.ReadsIdExactly | internal/repository/pebble/lease_table.go:141-151 | recovery reads an id back from its in-progress key if and only if "/inprog/" does not occur in the queue's base; else it reads a longer one |
| LeaseKeys.InprogOnceIff | internal/repository/pebble/lease_table.go:141-151 | with slash-free segments that is the case if and only if neither segment is "inprog" |
| LeaseKeys.EarlyMarkerMisreads | internal/repository/pebble/lease_table.go:141-151 | what is read instead for the tenant and for the command "inprog" |
| LeaseReaper.RecoveredExactly | internal/repository/pebble/lease_table.go:131-172 | whatever other keys hold, recovery finds exactly the tasks in progress whose queue it can read |
| LeaseReaper.RestartTransparent | internal/repository/pebble/lease_table.go:117-172 | the table rebuilt after a restart is the one that was lost if and only if every task in progress is in a queue that recovery can read |
| LeaseReaper.TenantInprogLost | internal/repository/pebble/lease_table.go:141-157 | for the tenant "inprog" the rebuilt table is empty although the task is in progress |
| LeaseReaper.VisitKeepsMirror | internal/repository/pebble/reaper.go:172-276 | a visit keeps lease table, in-progress sets and tasks in step |
| LeaseReaper.SweepKeepsMirror | internal/repository/pebble/reaper.go:165-204 | so does every sweep, so what is said about a restart holds at any point |
| LeaseReaper.RecoveredDrain | internal/repository/pebble/lease_table.go:117-172 | after a restart the sweeps requeue a task in progress if and only if its recorded lease has run out and recovery can read its queue, and change no other |
| LeaseReaper.LeaseTable.Extend | internal/repository/pebble/lease_table.go:76-86 | only the owner extends; anyone else changes nothing |
| LeaseReaper.LeaseTable.SnapshotExpired | internal/repository/pebble/lease_table.go:92-108 | distinct expired ids, at most the limit, all of them when they fit, in any iteration order |
| LeaseReaper.Reaper.RequeueExpiredOne | internal/repository/pebble/reaper.go:209-276 | counts the attempt, moves the task to delayed or DLQ in one batch, drops the lease only after the commit |
| LeaseReaper.Reaper.VisitOne | internal/repository/pebble/reaper.go:172-202 | the re-check, the drop of stale entries and the requeue |
| LeaseReaper.Reaper.SweepLeases | internal/repository/pebble/reaper.go:165-204 | a snapshot, then one visit per id |
| LeaseReaper.Reaper.RecoverLeases | internal/repository/pebble/lease_table.go:131-172 | over the scanned keys: one entry per id read from a key whose task names a worker and a lease end |
| TokenBucket.TokensBounded | internal/ratelimit/inmemory.go:92-117 | tokens stay between nothing and the capacity, whatever clock and configuration do |
| TokenBucket.RateBound | internal/ratelimit/inmemory.go:75-154 | in every window of a run with a clock that does not go back at most the burst plus the window's refill is admitted |
| TokenBucket.HintIsLeast | internal/ratelimit/inmemory.go:118-132 | the retry hint is the least whole number of seconds, at least one, after which an undisturbed retry is admitted |
| TokenBucket.HintHoldsUnderPolling | internal/ratelimit/inmemory.go:106-132 | denied polls in between do not delay the admission at the hint |
| TokenBucket.JanitorHarmless | internal/ratelimit/inmemory.go:158-187 | janitor passes change no decision when the burst is at most ten minutes' refill |
| TokenBucket.JanitorVisible | internal/ratelimit/inmemory.go:158-187 | for every larger burst there is a run in which a pass changes the decisions |
| TokenBucket.JanitorExact | internal/ratelimit/inmemory.go:158-187 | eviction changes no decision of any run if and only if the burst is at most ten minutes' refill |
| TokenBucket.LimitersAlike | internal/ratelimit/token_bucket.go:54-92 | without eviction the Go limiter and the Lua script decide alike, hints included, even when the clock jumps back or buckets are reconfigured |
| TokenBucket.TtlGain | internal/ratelimit/token_bucket.go:145-165 | a bucket fills up within its key's lifetime if and only if the burst is at most an hour's refill |
| TokenBucket.TtlIs | internal/ratelimit/token_bucket.go:145-165 | twice the fill time and five seconds, rounded up, between thirty seconds and an hour |
| TokenBucket.TtlHarmless | internal/ratelimit/token_bucket.go:54-92 | then key expiry changes no decision |
| TokenBucket.TtlVisible | internal/ratelimit/token_bucket.go:145-165 | for every larger burst there is a run of the script in which expiry changes the decisions |
| TokenBucket.TtlExact | internal/ratelimit/token_bucket.go:54-92 | expiry changes no decision of any run if and only if the burst is at most an hour's refill |
| TokenBucket.EvictingLimitersAlike | internal/ratelimit/inmemory.go:75-187 | with janitor and key expiry the two limiters decide alike on every millisecond run when the burst is at most ten minutes' refill |
| TokenBucket.InMemoryLimiter.Allow | internal/ratelimit/inmemory.go:75-133 | disabled buckets allow; else clamp, refill, take or deny with the hint; other keys keep their buckets |
| TokenBucket.InMemoryLimiter.GcOnce | internal/ratelimit/inmemory.go:175-187 | drops exactly the buckets idle longer than the threshold |
| Migration.ChunksInOrder | internal/shard/migrator.go:155-199 | a list of distinct ids keeps its order if and only if one batch takes all of it |
| Migration.ChunkPosition | internal/shard/migrator.go:155-199 | where each id of a moved list comes from |
| Migration.LengthIsCount | internal/shard/migrator.go:69-78 | the reported count is the number of ids moved |
| Migration.IdsAreListed | internal/shard/migrator.go:69-78 | the ids moved are those in the lists, each as often as it is there |
| Migration.ListConserved | internal/shard/migrator.go:155-199 | a migrated list keeps every id with its multiplicity |
| Migration.CopyMeaning | internal/shard/migrator.go:316-362 | bodies and positive retention scores come over for exactly the copied ids that have a body |
| Migration.CopyTaskData | internal/shard/migrator.go:316-362 | copies the listed ids and leaves the source server alone, also when both are one server |
| Migration.MigrateList | internal/shard/migrator.go:139-201 | the destination becomes itself followed by the source's right-end chunks, the source empty; a dry run only counts |
| Migration.MigrateZSet | internal/shard/migrator.go:204-262 | the destination becomes the union with scores, the source empty; a dry run only counts |
| Migration.MigrateListOntoItself | internal/shard/migrator.go:139-201 | under one shared key (shard ids "" and "default") a list comes back unchanged |
| Migration.MigrateZSetOntoItself | internal/shard/migrator.go:204-262 | under one shared key every delayed entry is lost |
| Migration.MigrateSetOntoItself | internal/shard/migrator.go:265-312 | under one shared key a set comes back unchanged, and the count is rounded up to whole batches |
| Migration.MigrateSet | internal/shard/migrator.go:265-312 | the destination becomes the union, the source empty; a dry run only counts |
| Migration.MigratePending | internal/shard/migrator.go:69-78 | all ten lists, with counts and data |
| Migration.Migrate | internal/shard/migrator.go:49-131 | the whole move: success empties the source; work in progress is refused only after pending and delayed tasks have moved; a dry run writes nothing and reports the same counts |
| Migration.MigrateOntoItself | internal/shard/migrator.go:49-131 | between two names of one shard: pending tasks, DLQ and data unchanged, delayed tasks lost, and the same counts of pending and delayed tasks |
| Migration.Verify | internal/shard/verifier.go:25-81 | succeeds exactly when every source queue is empty and all shards are healthy |
| Migration.MigrateAndVerify | internal/shard/verifier.go:25-136 | verification after a real migration succeeds exactly when nothing was in progress and all shards are healthy |
| Migration.MigrateOntoItselfAndVerify | internal/shard/verifier.go:25-136 | between two names of one shard verification succeeds exactly when nothing but delayed tasks was there and all shards are healthy |
| HashRing.OwnerUnique | internal/cluster/ring.go:76-84 | a key has one owner, whatever the input order and the collisions |
| HashRing.MinimalDisruption | internal/cluster/ring.go:43-84 | adding a node changes a key's owner only to the new node |
| HashRing.OrderIrrelevant | internal/cluster/ring.go:59-60 | the ring's nodes do not depend on the order they were given in, unless two different nodes share an id |
| HashRing.PlaceNode | internal/cluster/ring.go:62-69 | on a collision the node with the larger id takes the position; a repeated id changes nothing |
| HashRing.Search | internal/cluster/ring.go:79-79 | binary search finds the first position at or after the hash |
| HashRing.Ring.constructor | internal/cluster/ring.go:43-72 | a valid ring of exactly the given nodes, repeated ids included |
| HashRing.Ring.Owner | internal/cluster/ring.go:76-84 | the owner of the first position clockwise, wrapping around |
| HashRing.AppendInt | internal/cluster/ring.go:126-146 | sign and digits, written from the right into twenty bytes; the smallest number gets a sign only |
| HashRing.ReadsBack | internal/cluster/ring.go:126-146 | the text reads back as the number if and only if it is not the smallest 64-bit number |

## Left out

- HTTP, CLI, configuration, metrics, tracing, webhooks' delivery and artifact upload: no queue state.
- Raft elections, log replication and log truncation by a new leader: the committed log is given.
- Pebble internals, fsync, compaction and the batch byte format: a store is a map, a batch a list of writes.
- JSON and msgpack encodings, and the branches for malformed JSON.
- SHA-256, FNV and Bloom filter internals: hashes and filter answers are parameters.
- The embedded backend's TaskRepository methods (enqueue, claim, nack): only the reaper, the lease table and the keys are modelled; that a task in progress is in no other queue, that a waiting task records no lease and that task ids hold no slash are preconditions there.
- Retention sweeps of the embedded backend.
- Interleaving of the round trips of concurrent calls on Redis, including two racing idempotent enqueues.
- Backend errors inside the Redis lifecycle and their compensations, such as pushing a task back when the lease pipeline fails.
- Shards other than the default one in the Redis lifecycle, and moving tasks between shards by configuration.
- Case folding of commands beyond ASCII.
- RemoveFromInprogAndClearLease and its batch form: they repeat what the completing update already did.
- Backoff computation: a delay is any number.
- HashRing.Ring.constructor: node ids of 64 bytes or more, on which building the hash input panics in the original, are not told apart, because the hash is a parameter.
- Queue statistics and admin listings: they only read.
- Rounding of floating-point tokens: reals are exact.
- Requests queued after the coalescer has stopped: they are never answered; `Coalescer.Submit` shows them queued, no method answers them.
- Snapshot files and their retention on disk: a snapshot is its stream.
