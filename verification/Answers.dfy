/** What every call answers and what it leaves behind, in terms of the stored task and the arguments:
    when it is turned down and why, the fields of the new record, the one place of the task, its
    lease, and that nothing else changes. */
module Answers {
  import opened TaskTypes
  import opened Wrappers
  import opened RedisState
  import opened Lifecycle
  import opened Partition
  import opened Actions
  import opened Calls
  import opened Sequences

  /** Time and every task but `id` are as before: record, retention, lease, result, places, scores. */
  ghost predicate OthersKept(s: State, r: State, id: Id) {
    && r.now == s.now
    && r.tasks - {id} == s.tasks - {id} && r.ttl - {id} == s.ttl - {id}
    && r.leases - {id} == s.leases - {id} && r.results - {id} == s.results - {id}
    && QueuesKept(s.q, r.q, id)
  }

  ghost predicate QueuesKept(q: Queues, r: Queues, id: Id) {
    && (forall x, pl :: x != id ==> (In(r, x, pl) <==> In(q, x, pl)))
    && (forall b :: Delayed(r, b) - {id} == Delayed(q, b) - {id})
  }

  lemma QueuesKeptAlso(q: Queues, m: Queues, r: Queues, id: Id)
    requires QueuesKept(q, m, id) && QueuesKept(m, r, id)
    ensures QueuesKept(q, r, id)
  {
  }

  lemma SRemInprogKeeps(q: Queues, b: Base, id: Id)
    ensures QueuesKept(q, SRemInprog(q, b, id), id)
  {
  }

  /** `id` is stored with record `t`, retained for 24 hours from now, and is at `pl` and nowhere else. */
  ghost predicate StoredAt(r: State, id: Id, t: Task, pl: Place) {
    && id in r.tasks && r.tasks[id] == t && id in r.ttl && r.ttl[id] == r.now + 86400
    && (forall p :: In(r.q, id, p) <==> p == pl && pl != Nowhere)
  }

  lemma StoredOnlyAt(r: State, id: Id)
    requires Inv(r) && id in r.tasks && r.tasks[id].updatedAt == r.now
    ensures StoredAt(r, id, r.tasks[id], Where(r.tasks[id]))
  {
  }

  // ---------- enqueue ----------

  /** An enqueue stores a pending task with the requested fields and no attempt. With a future time it
      waits for that time, else it is at once in the pending list of its queue and priority, behind the
      others. */
  lemma EnqueueAnswer(s: State, id: Id, cmd: Command, payload: string, priority: int, webhook: string,
                      maxAttempts: int, visibleAt: Option<int>, tenant: Tenant)
    requires Inv(s) && id !in s.tasks && NoColon(cmd)
    ensures var r := Enqueue(s, id, cmd, payload, priority, webhook, maxAttempts, visibleAt, tenant);
            var b, p := QueueBase(cmd, tenant), if priority < 0 then 0 else if priority > 9 then 9 else priority;
            var later := visibleAt.Some? && visibleAt.value > s.now;
            && StoredAt(r, id,
                        Task(id, cmd, payload, p, webhook, Pending, if later then DelayedZSet else PendingList,
                             NO_WORKER, None, 0, maxAttempts, "", "", tenant, s.now, s.now),
                        if later then DelayedAt(b) else PendingAt(b, p))
            && (later ==> Delayed(r.q, b)[id] == visibleAt.value)
            && (!later ==> Pend(r.q, b, p) == [id] + Pend(s.q, b, p))
            && OthersKept(s, r, id) && r.leases == s.leases && r.results == s.results
  {
    var r := Enqueue(s, id, cmd, payload, priority, webhook, maxAttempts, visibleAt, tenant);
    EnqueueInv(s, id, cmd, payload, priority, webhook, maxAttempts, visibleAt, tenant);
    StoredOnlyAt(r, id);
    EnqueueKeeps(s, id, cmd, payload, priority, webhook, maxAttempts, visibleAt, tenant);
  }

  lemma EnqueueKeeps(s: State, id: Id, cmd: Command, payload: string, priority: int, webhook: string,
                     maxAttempts: int, visibleAt: Option<int>, tenant: Tenant)
    ensures OthersKept(s, Enqueue(s, id, cmd, payload, priority, webhook, maxAttempts, visibleAt, tenant), id)
  {
    hide QueuesKept, LPush, ZAddDelayed;
    var t := NewTask(s, id, cmd, payload, priority, webhook, maxAttempts, visibleAt, tenant);
    LPushKeeps(s.q, QueueBase(cmd, tenant), t.priority, id);
    if visibleAt.Some? {
      ZAddDelayedKeeps(s.q, QueueBase(cmd, tenant), id, visibleAt.value);
    }
  }

  lemma LPushKeeps(q: Queues, b: Base, p: int, id: Id)
    ensures QueuesKept(q, LPush(q, b, p, id), id)
  {
  }

  // ---------- nack and lease repair ----------

  /** A nack is turned down for a missing task, for another worker's task and for a task not in progress,
      in this order, and then changes nothing. Otherwise it counts an attempt and takes the task out of
      progress: into the DLQ if the attempts reach the limit (the task's own if positive, else the default
      if positive, else one), else into the delayed set for the delay, not less than zero. */
  lemma NackAnswer(s: State, id: Id, worker: Worker, delay: int, maxDefault: int, reason: string)
    requires Inv(s)
    ensures var (r, a) := Nack(s, id, worker, delay, maxDefault, reason);
            && (a.NackErr? ==> r == s)
            && (a == NackErr(NotFound) <==> id !in s.tasks)
            && (a == NackErr(NotOwner) <==> id in s.tasks && worker != NO_WORKER && s.tasks[id].worker != worker)
            && (a == NackErr(NotInProgress) <==>
                id in s.tasks && (worker == NO_WORKER || s.tasks[id].worker == worker)
                  && s.tasks[id].status != InProgress)
            && (a.NackOk? <==>
                id in s.tasks && (worker == NO_WORKER || s.tasks[id].worker == worker)
                  && s.tasks[id].status == InProgress)
    ensures var (r, a) := Nack(s, id, worker, delay, maxDefault, reason);
            a.NackOk? ==> NackedInto(s, r, id, delay, maxDefault, reason) && OthersKept(s, r, id)
                          && a == if Spent(s.tasks[id], maxDefault) then NackOk(0, true)
                                  else NackOk(if delay < 0 then 0 else delay, false)
  {
    if NackCheck(s, id, worker).None? {
      NackEffect(s, id, delay, maxDefault, reason);
      NackKeeps(s, id, delay, maxDefault, reason);
    }
  }

  /** One more attempt uses up the limit. */
  predicate Spent(t: Task, maxDefault: int) {
    t.attempts + 1 >= if t.maxAttempts > 0 then t.maxAttempts else if maxDefault > 0 then maxDefault else 1
  }

  ghost predicate NackedInto(s: State, r: State, id: Id, delay: int, maxDefault: int, reason: string)
    requires id in s.tasks
  {
    var t := s.tasks[id];
    var limit := if t.maxAttempts > 0 then t.maxAttempts else if maxDefault > 0 then maxDefault else 1;
    var b := QueueBase(t.cmd, t.tenant);
    && id !in r.leases && r.results == s.results
    && if Spent(t, maxDefault) then
         StoredAt(r, id, t.(status := Failed, loc := DlqSet, worker := NO_WORKER, leaseUntil := None,
                            attempts := t.attempts + 1, maxAttempts := limit, updatedAt := s.now,
                            error := if reason == "" then "MAX_ATTEMPTS" else reason),
                  DlqAt(b))
       else
         && StoredAt(r, id, t.(status := Pending, loc := DelayedZSet, worker := NO_WORKER, leaseUntil := None,
                               attempts := t.attempts + 1, maxAttempts := limit, updatedAt := s.now, error := ""),
                     DelayedAt(b))
         && id in Delayed(r.q, b) && Delayed(r.q, b)[id] == s.now + if delay < 0 then 0 else delay
  }

  lemma NackEffect(s: State, id: Id, delay: int, maxDefault: int, reason: string)
    requires Inv(s) && id in s.tasks && s.tasks[id].status == InProgress
    ensures NackedInto(s, NackApply(s, id, delay, maxDefault, reason), id, delay, maxDefault, reason)
    ensures NackedTask(s, s.tasks[id], maxDefault, reason).status == Failed <==> Spent(s.tasks[id], maxDefault)
  {
    TaskIsOk(s, id);
    NackApplyInv(s, id, delay, maxDefault, reason);
    StoredOnlyAt(NackApply(s, id, delay, maxDefault, reason), id);
  }

  lemma NackKeeps(s: State, id: Id, delay: int, maxDefault: int, reason: string)
    requires id in s.tasks && s.tasks[id].id == id
    ensures OthersKept(s, NackApply(s, id, delay, maxDefault, reason), id)
  {
    hide QueuesKept, SRemInprog, SAddDlq, ZAddDelayed, NackedTask;
    NackedId(s, s.tasks[id], maxDefault, reason);
    var b, at := HomeBase(s.tasks[id]), s.now + if delay < 0 then 0 else delay;
    var q1 := SRemInprog(s.q, b, id);
    SRemInprogKeeps(s.q, b, id);
    SAddDlqKeeps(q1, b, id);
    ZAddDelayedKeeps(q1, b, id, at);
    QueuesKeptAlso(s.q, q1, SAddDlq(q1, b, id), id);
    QueuesKeptAlso(s.q, q1, ZAddDelayed(q1, b, id, at), id);
  }

  lemma NackedId(s: State, t: Task, maxDefault: int, reason: string)
    ensures NackedTask(s, t, maxDefault, reason).id == t.id
  {
  }

  lemma SAddDlqKeeps(q: Queues, b: Base, id: Id)
    ensures QueuesKept(q, SAddDlq(q, b, id), id)
  {
  }

  lemma ZAddDelayedKeeps(q: Queues, b: Base, id: Id, score: int)
    ensures QueuesKept(q, ZAddDelayed(q, b, id, score), id)
  {
  }

  /** Lease repair on a sample of a queue's in-progress set: a sampled task whose lease has run out is
      nacked, with its backoff delay and the reason of the expiry; every other task is left alone. */
  lemma RepairAnswer(s: State, b: Base, picked: seq<Id>, delays: map<Id, int>, maxDefault: int, id: Id)
    requires Inv(s) && NoRepeats(picked) && forall i :: 0 <= i < |picked| ==> In(s.q, picked[i], InprogAt(b))
    ensures var r := RepairAll(s, b, ExpiredOf(s, picked), delays, maxDefault);
            if id in picked && !LeaseLive(s, id) then
              && id in s.tasks && id in r.tasks && r.tasks[id].status != InProgress && id !in r.leases
              && r.tasks[id].attempts == s.tasks[id].attempts + 1
              && (r.tasks[id].status == Failed <==> Spent(s.tasks[id], maxDefault))
              && (r.tasks[id].status == Failed ==> r.tasks[id].error == "LEASE_EXPIRED")
            else
              (id in r.tasks <==> id in s.tasks) && (id in r.tasks ==> r.tasks[id] == s.tasks[id])
  {
    hide Inv, RepairAll, Spent, ExpiredOf;
    ExpiredMembers(s, picked);
    ExpiredNoRepeats(s, picked);
    SampleExpired(s, b, picked);
    RepairEach(s, b, ExpiredOf(s, picked), delays, maxDefault, id);
  }

  lemma SampleExpired(s: State, b: Base, picked: seq<Id>)
    requires forall i :: 0 <= i < |picked| ==> In(s.q, picked[i], InprogAt(b))
    ensures AllExpired(s, b, ExpiredOf(s, picked))
  {
    hide In, LeaseLive, ExpiredOf;
    ExpiredMembers(s, picked);
    var ids := ExpiredOf(s, picked);
    forall i | 0 <= i < |ids| ensures In(s.q, ids[i], InprogAt(b)) && !LeaseLive(s, ids[i]) {
      assert ids[i] in ids;
    }
  }

  lemma {:induction false} RepairEach(s: State, b: Base, ids: seq<Id>, delays: map<Id, int>, maxDefault: int, id: Id)
    requires Inv(s) && NoRepeats(ids) && AllExpired(s, b, ids)
    ensures var r := RepairAll(s, b, ids, delays, maxDefault);
            if id in ids then
              && id in s.tasks && id in r.tasks && r.tasks[id].status != InProgress && id !in r.leases
              && r.tasks[id].attempts == s.tasks[id].attempts + 1
              && (r.tasks[id].status == Failed <==> Spent(s.tasks[id], maxDefault))
              && (r.tasks[id].status == Failed ==> r.tasks[id].error == "LEASE_EXPIRED")
            else
              (id in r.tasks <==> id in s.tasks) && (id in r.tasks ==> r.tasks[id] == s.tasks[id])
              && (id !in s.leases ==> id !in r.leases)
    decreases |ids|
  {
    hide Inv, RepairOne, In;
    if ids != [] {
      RepairFirst(s, b, ids, delays, maxDefault);
      var s1 := RepairOne(s, b, ids[0], delays, maxDefault);
      RestExpired(s, b, ids, delays, maxDefault);
      RepairEach(s1, b, ids[1..], delays, maxDefault, id);
      assert id in ids <==> id == ids[0] || id in ids[1..];
      assert ids[0] !in ids[1..];
      assert id != ids[0] ==> (id in s1.tasks - {ids[0]} <==> id in s.tasks - {ids[0]});
      assert id != ids[0] ==> (id in s1.leases - {ids[0]} <==> id in s.leases - {ids[0]});
    }
  }

  lemma RepairFirst(s: State, b: Base, ids: seq<Id>, delays: map<Id, int>, maxDefault: int)
    requires Inv(s) && ids != [] && AllExpired(s, b, ids)
    ensures ids[0] in s.tasks && s.tasks[ids[0]].status == InProgress
    ensures var r := RepairOne(s, b, ids[0], delays, maxDefault);
            OthersKept(s, r, ids[0]) && NackedInto(s, r, ids[0], DelayOf(delays, ids[0]), maxDefault, "LEASE_EXPIRED")
  {
    assert In(s.q, ids[0], InprogAt(b));
    TaskIsOk(s, ids[0]);
    NackAnswer(s, ids[0], NO_WORKER, DelayOf(delays, ids[0]), maxDefault, "LEASE_EXPIRED");
  }

  /** A claim that repairs leases does so after its delayed sweeps: a sampled task of the queue whose lease
      has run out is out of progress before the claim pops. */
  lemma SweepRepairs(s: State, cmd: Command, tenant: Tenant, limit: int, maxDefault: int, w: Sweep, id: Id)
    requires Inv(s) && NoColon(cmd) && SweepAnswers(s, cmd, tenant, limit, w) && w.repair && id in w.picked
    requires !LeaseLive(SweepDelayed(s, cmd, tenant, w), id)
    ensures var r := SweepOne(s, cmd, tenant, maxDefault, w);
            id in r.tasks && r.tasks[id].status != InProgress && id !in r.leases
  {
    hide Inv;
    SweepDelayedPerforms(s, cmd, tenant, limit, w);
    RepairAnswer(SweepDelayed(s, cmd, tenant, w), QueueBase(cmd, tenant), w.picked, w.delays, maxDefault, id);
  }

  // ---------- delayed sweep ----------

  /** A due task that a sweep moves is pending, without worker and lease, behind the others in the list
      of its own queue and priority, and in no delayed set. */
  lemma SweptAnswer(s: State, cmd: Command, from: Tenant, legacy: bool, id: Id)
    requires Inv(s) && NoColon(cmd) && (legacy ==> from == "") && id in Delayed(s.q, QueueBase(cmd, from))
    ensures id in s.tasks
    ensures var r, t := MoveOne(s, cmd, from, legacy, id), s.tasks[id];
            var b := QueueBase(t.cmd, t.tenant);
            && StoredAt(r, id, t.(status := Pending, loc := PendingList, worker := NO_WORKER, leaseUntil := None,
                                  updatedAt := s.now), PendingAt(b, t.priority))
            && Pend(r.q, b, t.priority) == [id] + Pend(s.q, b, t.priority)
            && OthersKept(s, r, id) && r.leases == s.leases && r.results == s.results
  {
    MoveOneInv(s, cmd, from, legacy, id);
    TaskIsOk(s, id);
    assert In(s.q, id, DelayedAt(QueueBase(cmd, from)));
    StoredOnlyAt(MoveOne(s, cmd, from, legacy, id), id);
    SweptToHome(s, cmd, from, legacy, id);
  }

  lemma SweptToHome(s: State, cmd: Command, from: Tenant, legacy: bool, id: Id)
    requires NoColon(cmd) && (legacy ==> from == "") && id in s.tasks
    requires QueueBase(cmd, from) == HomeBase(s.tasks[id]) && 0 <= s.tasks[id].priority <= 9 && NoColon(s.tasks[id].cmd)
    ensures var r, t := MoveOne(s, cmd, from, legacy, id), s.tasks[id];
            Pend(r.q, HomeBase(t), t.priority) == [id] + Pend(s.q, HomeBase(t), t.priority) && OthersKept(s, r, id)
  {
    hide QueuesKept, LPush, ZRemDelayed, QueueBase, Requeued;
    var t := s.tasks[id];
    QueueBaseSeparates(cmd, from, t.cmd, t.tenant);
    var q1, b := ZRemDelayed(s.q, HomeBase(t), id), QueueBase(cmd, if legacy then t.tenant else from);
    ZRemDelayedKeeps(s.q, HomeBase(t), id);
    LPushKeeps(q1, b, t.priority, id);
    PushedFront(q1, b, t.priority, id);
    QueuesKeptAlso(s.q, q1, LPush(q1, b, t.priority, id), id);
  }

  lemma PushedFront(q: Queues, b: Base, p: int, id: Id)
    ensures Pend(LPush(q, b, p, id), b, p) == [id] + Pend(q, b, p)
  {
  }

  lemma ZRemDelayedKeeps(q: Queues, b: Base, id: Id)
    ensures QueuesKept(q, ZRemDelayed(q, b, id), id)
  {
  }

  // ---------- heartbeat and abandon ----------

  /** A heartbeat is turned down for a missing task and for another worker's task. Otherwise the record
      says that the lease runs for the extension from now, a live lease key does too, and the task stays
      where it is. */
  lemma HeartbeatAnswer(s: State, id: Id, worker: Worker, extend: int)
    requires Inv(s) && worker != NO_WORKER
    ensures var (r, e) := Heartbeat(s, id, worker, extend);
            && (e.Some? ==> r == s)
            && (e == Some(NotFound) <==> id !in s.tasks)
            && (e == Some(NotOwner) <==> id in s.tasks && s.tasks[id].worker != worker)
            && (e.None? <==> id in s.tasks && s.tasks[id].worker == worker)
            && (e.None? ==>
                  && s.tasks[id].status == InProgress
                  && StoredAt(r, id, s.tasks[id].(leaseUntil := Some(s.now + extend), updatedAt := s.now),
                              InprogAt(QueueBase(s.tasks[id].cmd, s.tasks[id].tenant)))
                  && (LeaseLive(r, id) <==> LeaseLive(s, id) && extend > 0)
                  && (LeaseLive(r, id) ==> r.leases[id] == Lease(worker, s.now + extend))
                  && OthersKept(s, r, id) && r.q == s.q && r.results == s.results)
  {
    hide OthersKept, In;
    if OwnerCheck(s, id, worker).None? {
      TaskIsOk(s, id);
      HeartbeatInv(s, id, worker, extend);
      StoredOnlyAt(Heartbeat(s, id, worker, extend).0, id);
      HeartbeatKeeps(s, id, worker, extend);
    }
  }

  lemma HeartbeatKeeps(s: State, id: Id, worker: Worker, extend: int)
    requires OwnerCheck(s, id, worker).None? && s.tasks[id].id == id
             && (id in s.leases ==> s.leases[id].worker == worker)
    ensures var r := Heartbeat(s, id, worker, extend).0;
            && (LeaseLive(r, id) <==> LeaseLive(s, id) && extend > 0)
            && (LeaseLive(r, id) ==> r.leases[id] == Lease(worker, s.now + extend))
            && OthersKept(s, r, id) && r.q == s.q
  {
    hide In;
  }

  /** An abandon is turned down for a missing task and for another worker's task. Otherwise the task is
      pending again, without worker and lease, behind the others in its list, and no attempt is counted. */
  lemma AbandonAnswer(s: State, id: Id, worker: Worker)
    requires Inv(s) && worker != NO_WORKER
    ensures var (r, e) := Abandon(s, id, worker);
            && (e.Some? ==> r == s)
            && (e == Some(NotFound) <==> id !in s.tasks)
            && (e == Some(NotOwner) <==> id in s.tasks && s.tasks[id].worker != worker)
            && (e.None? <==> id in s.tasks && s.tasks[id].worker == worker)
            && (e.None? ==> Returned(s, r, id))
  {
    if OwnerCheck(s, id, worker).None? {
      TaskIsOk(s, id);
      AbandonInv(s, id, worker);
      StoredOnlyAt(Abandon(s, id, worker).0, id);
      AbandonKeeps(s, id, worker);
    }
  }

  ghost predicate Returned(s: State, r: State, id: Id)
    requires id in s.tasks
  {
    var t := s.tasks[id];
    var b := QueueBase(t.cmd, t.tenant);
    && StoredAt(r, id, t.(status := Pending, loc := PendingList, worker := NO_WORKER, leaseUntil := None,
                          updatedAt := s.now), PendingAt(b, t.priority))
    && Pend(r.q, b, t.priority) == [id] + Pend(s.q, b, t.priority) && id !in r.leases
    && OthersKept(s, r, id) && r.results == s.results
  }

  lemma AbandonKeeps(s: State, id: Id, worker: Worker)
    requires OwnerCheck(s, id, worker).None? && s.tasks[id].id == id && 0 <= s.tasks[id].priority <= 9
    ensures var r, t := Abandon(s, id, worker).0, s.tasks[id];
            Pend(r.q, HomeBase(t), t.priority) == [id] + Pend(s.q, HomeBase(t), t.priority) && OthersKept(s, r, id)
  {
  }

  // ---------- submission ----------

  /** An accepted submission stores the result and finishes the task: the submitted status, no worker, no
      lease, no place in any queue; the submitted error replaces the task's own unless it is empty. */
  lemma SubmitAnswer(s: State, id: Id, req: SubmitRequest)
    requires Inv(s) && Submit(s, id, req).1.SubmitOk?
    ensures id in s.tasks
    ensures var (r, a) := Submit(s, id, req); var t := s.tasks[id];
            && a == SubmitOk(ResultRecord(id, req.status, req.result, req.error, s.now))
            && r.results == s.results[id := a.rec] && id !in r.leases
            && StoredAt(r, id, t.(status := req.status, loc := NoLocation, worker := NO_WORKER, leaseUntil := None,
                                  updatedAt := s.now, error := if req.error != "" then req.error else t.error,
                                  resultKey := "codeq:results"), Nowhere)
            && OthersKept(s, r, id)
  {
    SubmitInv(s, id, req);
    StoredOnlyAt(Submit(s, id, req).0, id);
    SubmitKeeps(s, id, req);
  }

  lemma SubmitKeeps(s: State, id: Id, req: SubmitRequest)
    requires id in s.tasks
    ensures OthersKept(s, SubmitApply(s, id, req), id)
  {
    hide QueuesKept, SRemInprog;
    SRemInprogKeeps(s.q, HomeBase(s.tasks[id]), id);
  }

  // ---------- cleanup ----------

  /** A cleanup removes the listed tasks its filter does not skip, and no other: their record, retention,
      lease and places are gone, their results stay. */
  lemma {:induction false} CleanupAnswer(s: State, ids: seq<Id>, skip: set<Id>, id: Id)
    requires Inv(s)
    ensures var r := CleanupExpired(s, ids, skip);
            && Inv(r) && r.now == s.now && r.results == s.results
            && (id in r.tasks <==> id in s.tasks && !(id in ids && id !in skip))
            && (id in r.tasks ==> r.tasks[id] == s.tasks[id] && r.ttl[id] == s.ttl[id]
                                  && (id in r.leases <==> id in s.leases)
                                  && (id in r.leases ==> r.leases[id] == s.leases[id]))
            && (id !in r.tasks ==> id !in r.ttl && id !in r.leases && forall pl :: !In(r.q, id, pl))
    decreases |ids|
  {
    hide CleanOne;
    if ids != [] {
      if ids[0] !in skip {
        CleanOneAnswer(s, ids[0]);
      }
      CleanupAnswer(if ids[0] in skip then s else CleanOne(s, ids[0]), ids[1..], skip, id);
    }
  }

  lemma CleanOneAnswer(s: State, id: Id)
    requires Inv(s)
    ensures var r := CleanOne(s, id);
            && Inv(r) && r.now == s.now && r.results == s.results
            && r.tasks == s.tasks - {id} && r.ttl == s.ttl - {id} && r.leases == s.leases - {id}
  {
    if id in s.tasks {
      CleanOneInv(s, id);
    }
  }
}
