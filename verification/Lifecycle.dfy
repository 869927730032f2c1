/** What each repository call does to the Redis data, call by call.

    A call is one atomic step. What Redis or the process chooses freely (the ids a range or
    random-member query returns, backoff delays, Bloom-filter answers, the reconcile throttle)
    is an argument. Lease durations are counted in whole seconds. */
module Lifecycle {
  import opened TaskTypes
  import opened Wrappers
  import opened RedisState
  import opened Sequences

  datatype Error = NotFound | NotOwner | NotInProgress | ResultRequired | ErrorRequired | InvalidStatus

  // ---------- enqueue ----------

  function NewTask(s: State, id: Id, cmd: Command, payload: string, priority: int, webhook: string,
                   maxAttempts: int, visibleAt: Option<int>, tenant: Tenant): Task
  {
    var scheduled := visibleAt.Some? && visibleAt.value > s.now;
    Task(id, cmd, payload, NormalizePriority(priority), webhook, Pending,
         if scheduled then DelayedZSet else PendingList,
         NO_WORKER, None, 0, maxAttempts, "", "", tenant, s.now, s.now)
  }

  function Enqueue(s: State, id: Id, cmd: Command, payload: string, priority: int, webhook: string,
                   maxAttempts: int, visibleAt: Option<int>, tenant: Tenant): State
  {
    var t := NewTask(s, id, cmd, payload, priority, webhook, maxAttempts, visibleAt, tenant);
    var b := QueueBase(cmd, tenant);
    var q := if t.loc == DelayedZSet then ZAddDelayed(s.q, b, id, visibleAt.value) else LPush(s.q, b, t.priority, id);
    Touch(s, id, t).(q := q)
  }

  // ---------- delayed sweep ----------

  function Requeued(s: State, t: Task): Task {
    t.(status := Pending, loc := PendingList, worker := NO_WORKER, leaseUntil := None, updatedAt := s.now)
  }

  /** One due id of a delayed sweep over queue (cmd, from). The sweep over the tenant-less queue
      (`legacy`) pushes to the queue of the task's own tenant, the other to the swept tenant's. */
  function MoveOne(s: State, cmd: Command, from: Tenant, legacy: bool, id: Id): State {
    var q := ZRemDelayed(s.q, QueueBase(cmd, from), id);
    if id !in s.tasks then s.(q := q)
    else
      var t := s.tasks[id];
      var b := QueueBase(cmd, if legacy then t.tenant else from);
      Touch(s, id, Requeued(s, t)).(q := LPush(q, b, NormalizePriority(t.priority), id))
  }

  function MoveDue(s: State, cmd: Command, from: Tenant, legacy: bool, ids: seq<Id>): State
    decreases |ids|
  {
    if ids == [] then s
    else MoveDue(MoveOne(s, cmd, from, legacy, ids[0]), cmd, from, legacy, ids[1..])
  }

  /** ZRANGEBYSCORE -inf max LIMIT 0 limit: the due members in score order, ties in any order. */
  ghost predicate DueBatch(z: map<Id, int>, max: int, limit: int, ids: seq<Id>) {
    && NoRepeats(ids)
    && |ids| <= limit
    && (forall i :: 0 <= i < |ids| ==> ids[i] in z && z[ids[i]] <= max)
    && (forall i, j :: 0 <= i < j < |ids| ==> z[ids[i]] <= z[ids[j]])
    && (forall x :: x in z && z[x] <= max && x !in ids ==>
          |ids| == limit && forall i :: 0 <= i < |ids| ==> z[ids[i]] <= z[x])
  }

  /** The limit a sweep uses; zero or less stands for 200. */
  function SweepLimit(limit: int): int {
    if limit <= 0 then 200 else limit
  }

  // ---------- nack ----------

  datatype NackResult = NackErr(error: Error) | NackOk(delay: int, terminal: bool)

  function EffectiveMax(maxAttempts: int, maxDefault: int): (r: int)
    ensures r >= 1
  {
    if maxAttempts > 0 then maxAttempts else if maxDefault > 0 then maxDefault else 1
  }

  function NackCheck(s: State, id: Id, worker: Worker): Option<Error> {
    if id !in s.tasks then Some(NotFound)
    else if worker != NO_WORKER && s.tasks[id].worker != worker then Some(NotOwner)
    else if s.tasks[id].status != InProgress then Some(NotInProgress)
    else None
  }

  function NackedTask(s: State, t: Task, maxDefault: int, reason: string): Task {
    var m := EffectiveMax(t.maxAttempts, maxDefault);
    var t1 := t.(attempts := t.attempts + 1, maxAttempts := m, worker := NO_WORKER, leaseUntil := None,
                 updatedAt := s.now);
    if t1.attempts >= m then
      t1.(status := Failed, loc := DlqSet, error := if reason == "" then "MAX_ATTEMPTS" else reason)
    else
      t1.(status := Pending, loc := DelayedZSet, error := "")
  }

  /** The accepted part of a nack: out of progress, and into the delayed set or the DLQ. */
  function NackApply(s: State, id: Id, delay: int, maxDefault: int, reason: string): State
    requires id in s.tasks
  {
    var t := s.tasks[id];
    var t1 := NackedTask(s, t, maxDefault, reason);
    var b := HomeBase(t);
    var q := SRemInprog(s.q, b, id);
    var q1 := if t1.status == Failed then SAddDlq(q, b, id)
              else ZAddDelayed(q, b, id, s.now + (if delay < 0 then 0 else delay));
    Touch(s, t1.id, t1).(q := q1, leases := s.leases - {id})
  }

  function Nack(s: State, id: Id, worker: Worker, delay: int, maxDefault: int, reason: string): (State, NackResult) {
    var e := NackCheck(s, id, worker);
    if e.Some? then (s, NackErr(e.value))
    else
      var t1 := NackedTask(s, s.tasks[id], maxDefault, reason);
      (NackApply(s, id, delay, maxDefault, reason),
       if t1.status == Failed then NackOk(0, true) else NackOk(if delay < 0 then 0 else delay, false))
  }

  // ---------- lease repair ----------

  /** The sampled ids whose lease key is gone. */
  function ExpiredOf(s: State, picked: seq<Id>): seq<Id> {
    if picked == [] then []
    else (if LeaseLive(s, picked[0]) then [] else [picked[0]]) + ExpiredOf(s, picked[1..])
  }

  function DelayOf(delays: map<Id, int>, id: Id): int {
    if id in delays then delays[id] else 0
  }

  /** Nack one id whose lease is gone; an id with no task in progress only leaves the set. */
  function RepairOne(s: State, b: Base, id: Id, delays: map<Id, int>, maxDefault: int): State {
    var (s1, r) := Nack(s, id, NO_WORKER, DelayOf(delays, id), maxDefault, "LEASE_EXPIRED");
    if r.NackErr? then s1.(q := SRemInprog(s1.q, b, id)) else s1
  }

  function RepairAll(s: State, b: Base, ids: seq<Id>, delays: map<Id, int>, maxDefault: int): State
    decreases |ids|
  {
    if ids == [] then s
    else RepairAll(RepairOne(s, b, ids[0], delays, maxDefault), b, ids[1..], delays, maxDefault)
  }

  /** SRANDMEMBER set limit: distinct members, all of them when the set is small enough. */
  ghost predicate Sample(members: set<Id>, limit: int, picked: seq<Id>) {
    && NoRepeats(picked)
    && |picked| <= limit
    && (forall x :: x in picked ==> x in members)
    && (|picked| < limit ==> forall x :: x in members ==> x in picked)
  }

  // ---------- claim ----------

  /** What the environment answers while Claim sweeps one command. */
  datatype Sweep = Sweep(legacyDue: seq<Id>, tenantDue: seq<Id>, repair: bool, picked: seq<Id>, delays: map<Id, int>)

  function SweepDelayed(s: State, cmd: Command, tenant: Tenant, w: Sweep): State {
    var s1 := MoveDue(s, cmd, "", true, w.legacyDue);
    if tenant == "" then s1 else MoveDue(s1, cmd, tenant, false, w.tenantDue)
  }

  function SweepOne(s: State, cmd: Command, tenant: Tenant, maxDefault: int, w: Sweep): State {
    var s2 := SweepDelayed(s, cmd, tenant, w);
    if w.repair then RepairAll(s2, QueueBase(cmd, tenant), ExpiredOf(s2, w.picked), w.delays, maxDefault) else s2
  }

  /** The answers of `w` are ones Redis can give in the states where they are asked for. */
  ghost predicate SweepAnswers(s: State, cmd: Command, tenant: Tenant, limit: int, w: Sweep) {
    var s1 := MoveDue(s, cmd, "", true, w.legacyDue);
    var s2 := SweepDelayed(s, cmd, tenant, w);
    && DueBatch(Delayed(s.q, QueueBase(cmd, "")), s.now, SweepLimit(limit), w.legacyDue)
    && (tenant != "" ==> DueBatch(Delayed(s1.q, QueueBase(cmd, tenant)), s.now, SweepLimit(limit), w.tenantDue))
    && (w.repair ==> Sample(Inprog(s2.q, QueueBase(cmd, tenant)), SweepLimit(limit), w.picked))
  }

  function SweepAll(s: State, cmds: seq<Command>, tenant: Tenant, maxDefault: int, ws: seq<Sweep>): State
    requires |ws| == |cmds|
    decreases |cmds|
  {
    if cmds == [] then s
    else SweepAll(SweepOne(s, cmds[0], tenant, maxDefault, ws[0]), cmds[1..], tenant, maxDefault, ws[1..])
  }

  ghost predicate SweepAllAnswers(s: State, cmds: seq<Command>, tenant: Tenant,
                                  limit: int, maxDefault: int, ws: seq<Sweep>)
    requires |ws| == |cmds|
    decreases |cmds|
  {
    cmds == [] ||
    (SweepAnswers(s, cmds[0], tenant, limit, ws[0]) &&
     SweepAllAnswers(SweepOne(s, cmds[0], tenant, maxDefault, ws[0]), cmds[1..], tenant, limit, maxDefault, ws[1..]))
  }

  /** The multi-priority claim script over the lists of priorities p, p-1, .., 0: one pop per list,
      and on to the next list when the popped id is already in progress. */
  function PopScript(q: Queues, b: Base, p: int): (Queues, Option<Id>)
    decreases p + 1, q
  {
    if p < MIN_PRIORITY then (q, None)
    else if Pend(q, b, p) == [] then PopScript(q, b, p - 1)
    else
      var id := Pend(q, b, p)[|Pend(q, b, p)| - 1];
      var q1 := RPop(q, b, p);
      if id in Inprog(q1, b) then PopScript(q1, b, p - 1)
      else (SAddInprog(q1, b, id), Some(id))
  }

  function LRemAll(q: Queues, b: Base, p: int, id: Id): Queues
    decreases p + 1, q
  {
    if p < MIN_PRIORITY then q else LRemAll(LRem(q, b, p, id), b, p - 1, id)
  }

  function ClaimedTask(s: State, t: Task, worker: Worker, lease: int): Task {
    t.(status := InProgress, loc := InprogSet, worker := worker, leaseUntil := Some(s.now + lease),
       attempts := t.attempts + 1, updatedAt := s.now)
  }

  function Take(s: State, id: Id, worker: Worker, lease: int): State
    requires id in s.tasks
  {
    var t := ClaimedTask(s, s.tasks[id], worker, lease);
    s.(tasks := s.tasks[t.id := t], ttl := s.ttl[id := s.now + RETENTION],
       leases := s.leases[id := Lease(worker, s.now + lease)])
  }

  /** Pop up to `tries` ids; ids the ghost filter reports or without a record are cleaned up. */
  function TryPop(s: State, b: Base, tries: int, flagged: set<Id>, worker: Worker, lease: int): (State, Option<Task>)
    decreases tries, 1
  {
    if tries <= 0 then (s, None)
    else
      var (q1, popped) := PopScript(s.q, b, MAX_PRIORITY);
      AfterPop(s.(q := q1), popped, b, tries, flagged, worker, lease)
  }

  /** What becomes of a popped id. */
  function AfterPop(s: State, popped: Option<Id>, b: Base, tries: int, flagged: set<Id>, worker: Worker, lease: int)
    : (State, Option<Task>)
    requires tries > 0
    decreases tries, 0
  {
    if popped.None? then (s, None)
    else if popped.value in flagged || popped.value !in s.tasks then
      TryPop(s.(q := LRemAll(SRemInprog(s.q, b, popped.value), b, MAX_PRIORITY, popped.value)),
             b, tries - 1, flagged, worker, lease)
    else
      (Take(s, popped.value, worker, lease), Some(ClaimedTask(s, s.tasks[popped.value], worker, lease)))
  }

  function PopFirst(s: State, cmds: seq<Command>, tenant: Tenant, limit: int,
                    flagged: set<Id>, worker: Worker, lease: int)
    : (State, Option<Task>)
    decreases |cmds|
  {
    if cmds == [] then (s, None)
    else
      var (s1, r) := TryPop(s, QueueBase(cmds[0], tenant), limit, flagged, worker, lease);
      if r.Some? then (s1, r) else PopFirst(s1, cmds[1..], tenant, limit, flagged, worker, lease)
  }

  function Claim(s: State, worker: Worker, cmds: seq<Command>, lease: int, limit: int, maxDefault: int, tenant: Tenant,
                 ws: seq<Sweep>, flagged: set<Id>): (State, Option<Task>)
    requires |ws| == |cmds|
  {
    PopFirst(SweepAll(s, cmds, tenant, maxDefault, ws), cmds, tenant, limit, flagged, worker, lease)
  }

  // ---------- heartbeat, abandon ----------

  function OwnerCheck(s: State, id: Id, worker: Worker): Option<Error> {
    if id !in s.tasks then Some(NotFound)
    else if s.tasks[id].worker != worker then Some(NotOwner)
    else None
  }

  function Heartbeat(s: State, id: Id, worker: Worker, extend: int): (State, Option<Error>) {
    var e := OwnerCheck(s, id, worker);
    if e.Some? then (s, e)
    else
      var t := s.tasks[id].(leaseUntil := Some(s.now + extend), updatedAt := s.now, loc := InprogSet);
      (Touch(s, t.id, t).(leases := ExpireLease(s, id, extend)), None)
  }

  function Abandon(s: State, id: Id, worker: Worker): (State, Option<Error>) {
    var e := OwnerCheck(s, id, worker);
    if e.Some? then (s, e)
    else
      var t := s.tasks[id];
      var q := LPush(SRemInprog(s.q, HomeBase(t), id), HomeBase(t), NormalizePriority(t.priority), id);
      (Touch(s, t.id, Requeued(s, t)).(q := q, leases := s.leases - {id}), None)
  }

  // ---------- submit ----------

  /** A submitted result; `result` is absent when the request carries none. */
  datatype SubmitRequest = SubmitRequest(worker: Worker, status: Status, result: Option<string>, error: string)

  /** The characters trimmed off the ends of a string: Unicode white space. */
  predicate IsSpace(c: char) {
    var n := c as int;
    9 <= n <= 13 || 0x2000 <= n <= 0x200A || n in [0x20, 0x85, 0xA0, 0x1680, 0x2028, 0x2029, 0x202F, 0x205F, 0x3000]
  }

  predicate Blank(s: string) {
    forall i :: 0 <= i < |s| ==> IsSpace(s[i])
  }

  /** The reason a submission is turned down, if any, in the order the service looks. */
  function SubmitCheck(tasks: map<Id, Task>, id: Id, req: SubmitRequest): Option<Error> {
    if id !in tasks then Some(NotFound)
    else
      var t := tasks[id];
      if t.worker != NO_WORKER && req.worker != NO_WORKER && t.worker != req.worker then Some(NotOwner)
      else if t.status != InProgress then Some(NotInProgress)
      else match req.status
           case Completed => if req.result.None? then Some(ResultRequired) else None
           case Failed => if Blank(req.error) then Some(ErrorRequired) else None
           case _ => Some(InvalidStatus)
  }

  function RecordOf(s: State, id: Id, req: SubmitRequest): ResultRecord {
    ResultRecord(id, req.status, req.result, req.error, s.now)
  }

  function SaveResult(s: State, rec: ResultRecord): State
    requires rec.taskId in s.tasks
  {
    var t := s.tasks[rec.taskId].(resultKey := "codeq:results");
    Touch(s, rec.taskId, t).(results := s.results[rec.taskId := rec])
  }

  function CompletedTask(s: State, t: Task, status: Status, error: string): Task {
    t.(status := status, loc := NoLocation, worker := NO_WORKER, leaseUntil := None, updatedAt := s.now,
       error := if error != "" then error else t.error)
  }

  function CompleteTask(s: State, id: Id, status: Status, error: string): State
    requires id in s.tasks
  {
    var t := s.tasks[id];
    Touch(s, id, CompletedTask(s, t, status, error)).(q := SRemInprog(s.q, HomeBase(t), id), leases := s.leases - {id})
  }

  function SubmitApply(s: State, id: Id, req: SubmitRequest): State
    requires id in s.tasks
  {
    CompleteTask(SaveResult(s, RecordOf(s, id, req)), id, req.status, req.error)
  }

  datatype SubmitResult = SubmitErr(error: Error) | SubmitOk(rec: ResultRecord)

  function Submit(s: State, id: Id, req: SubmitRequest): (State, SubmitResult) {
    var e := SubmitCheck(s.tasks, id, req);
    if e.Some? then (s, SubmitErr(e.value)) else (SubmitApply(s, id, req), SubmitOk(RecordOf(s, id, req)))
  }

  // ---------- cleanup ----------

  function CleanOne(s: State, id: Id): State {
    if id !in s.tasks then s
    else
      var t := s.tasks[id];
      var b := HomeBase(t);
      var q := if t.loc == Unset || t.loc == PendingList then LRem(s.q, b, NormalizePriority(t.priority), id) else s.q;
      s.(tasks := s.tasks - {id}, ttl := s.ttl - {id}, leases := s.leases - {id},
         q := SRemDlq(ZRemDelayed(SRemInprog(q, b, id), b, id), b, id))
  }

  /** The ids of one cleanup, without those the cleanup filter claims to have seen (`skip`). */
  function CleanupExpired(s: State, ids: seq<Id>, skip: set<Id>): State
    decreases |ids|
  {
    if ids == [] then s
    else CleanupExpired(if ids[0] in skip then s else CleanOne(s, ids[0]), ids[1..], skip)
  }

  function CleanupLimit(limit: int): int {
    if limit <= 0 then 1000 else limit
  }
}
