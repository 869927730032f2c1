/** The Redis repository as it is written: an object whose calls update its maps, proved against
    the call-by-call description in module Lifecycle. */
module TaskRepository {
  import opened TaskTypes
  import opened Wrappers
  import opened RedisState
  import opened Lifecycle

  class Repository {
    var now: int
    var pending: map<(Base, int), seq<Id>>
    var inprog: map<Base, set<Id>>
    var delayed: map<Base, map<Id, int>>
    var dlq: map<Base, set<Id>>
    var tasks: map<Id, Task>
    var leases: map<Id, Lease>
    var ttl: map<Id, int>
    var results: map<Id, ResultRecord>

    constructor (start: int)
      ensures Data() == State(start, Queues(map[], map[], map[], map[]), map[], map[], map[], map[])
    {
      now, tasks, leases, ttl, results := start, map[], map[], map[], map[];
      pending, inprog, delayed, dlq := map[], map[], map[], map[];
    }

    function Qs(): Queues
      reads this
    {
      Queues(pending, inprog, delayed, dlq)
    }

    /** The data of the repository as a value. */
    function Data(): State
      reads this
    {
      State(now, Qs(), tasks, leases, ttl, results)
    }

    method EnqueueWithId(id: Id, cmd: Command, payload: string, priority: int, webhook: string, maxAttempts: int,
                         visibleAt: Option<int>, tenant: Tenant) returns (task: Task, ready: bool)
      modifies this
      ensures Data() == Enqueue(old(Data()), id, cmd, payload, priority, webhook, maxAttempts, visibleAt, tenant)
      ensures task == NewTask(old(Data()), id, cmd, payload, priority, webhook, maxAttempts, visibleAt, tenant)
      ensures ready <==> task.loc == PendingList && Pend(old(Qs()), QueueBase(cmd, tenant), task.priority) == []
    {
      var prio := NormalizePriority(priority);
      var scheduled := visibleAt.Some? && visibleAt.value > now;
      task := Task(id, cmd, payload, prio, webhook, Pending, if scheduled then DelayedZSet else PendingList,
                   NO_WORKER, None, 0, maxAttempts, "", "", tenant, now, now);
      var b := QueueBase(cmd, tenant);
      tasks := tasks[id := task];
      ttl := ttl[id := now + RETENTION];
      ready := false;
      if scheduled {
        delayed := delayed[b := Delayed(Qs(), b)[id := visibleAt.value]];
      } else {
        pending := pending[(b, prio) := [id] + Pend(Qs(), b, prio)];
        ready := |pending[(b, prio)]| == 1;
      }
    }

    /** The delayed sweep over queue (cmd, from), on the ids the range query returned. */
    method MoveDueDelayed(cmd: Command, from: Tenant, legacy: bool, ids: seq<Id>)
      modifies this
      ensures Data() == MoveDue(old(Data()), cmd, from, legacy, ids)
    {
      for i := 0 to |ids|
        invariant MoveDue(Data(), cmd, from, legacy, ids[i..]) == MoveDue(old(Data()), cmd, from, legacy, ids)
      {
        MoveOneDue(cmd, from, legacy, ids[i]);
        assert ids[i..][1..] == ids[i + 1..];
      }
      assert ids[|ids|..] == [];
    }

    method MoveOneDue(cmd: Command, from: Tenant, legacy: bool, id: Id)
      modifies this
      ensures Data() == MoveOne(old(Data()), cmd, from, legacy, id)
    {
      var source := QueueBase(cmd, from);
      delayed := delayed[source := Delayed(Qs(), source) - {id}];
      if id in tasks {
        var t := tasks[id];
        var target := QueueBase(cmd, if legacy then t.tenant else from);
        var prio := NormalizePriority(t.priority);
        pending := pending[(target, prio) := [id] + Pend(Qs(), target, prio)];
        tasks := tasks[id := t.(status := Pending, loc := PendingList, worker := NO_WORKER,
                                leaseUntil := None, updatedAt := now)];
        ttl := ttl[id := now + RETENTION];
      }
    }

    method NackTask(id: Id, worker: Worker, delay: int, maxDefault: int, reason: string) returns (r: NackResult)
      modifies this
      ensures (Data(), r) == Nack(old(Data()), id, worker, delay, maxDefault, reason)
      ensures r.NackErr? ==> Data() == old(Data())
      ensures r.NackOk? ==>
                && id in old(tasks) && old(tasks)[id].status == InProgress
                && var t := old(tasks)[id];
                   var limit := if t.maxAttempts > 0 then t.maxAttempts else if maxDefault > 0 then maxDefault else 1;
                   (r.terminal <==> t.attempts + 1 >= limit) && r.delay == if r.terminal || delay < 0 then 0 else delay
    {
      if id !in tasks {
        return NackErr(NotFound);
      }
      var t := tasks[id];
      if worker != NO_WORKER && t.worker != worker {
        return NackErr(NotOwner);
      }
      if t.status != InProgress {
        return NackErr(NotInProgress);
      }
      r := ApplyNack(id, delay, maxDefault, reason);
    }

    method ApplyNack(id: Id, delay: int, maxDefault: int, reason: string) returns (r: NackResult)
      requires id in tasks
      modifies this
      ensures Data() == NackApply(old(Data()), id, delay, maxDefault, reason)
      ensures r == if NackedTask(old(Data()), old(tasks)[id], maxDefault, reason).status == Failed then NackOk(0, true)
                   else NackOk(if delay < 0 then 0 else delay, false)
    {
      hide NackedTask, EffectiveMax, SRemInprog, SAddDlq, ZAddDelayed;
      var t := CountAttempt(tasks[id], maxDefault, reason);
      var wait := if delay < 0 then 0 else delay;
      LeaveProgress(HomeBase(tasks[id]), id, t.status == Failed, now + wait);
      tasks := tasks[t.id := t];
      ttl := ttl[t.id := now + RETENTION];
      r := if t.status == Failed then NackOk(0, true) else NackOk(wait, false);
    }

    /** The record after a nack: one more attempt, and dead-lettered when the limit is reached. */
    method CountAttempt(t: Task, maxDefault: int, reason: string) returns (next: Task)
      ensures next == NackedTask(Data(), t, maxDefault, reason)
      ensures var limit := if t.maxAttempts > 0 then t.maxAttempts else if maxDefault > 0 then maxDefault else 1;
              && next.attempts == t.attempts + 1 && next.maxAttempts == limit
              && if t.attempts + 1 >= limit then next.status == Failed && next.loc == DlqSet
                 else next.status == Pending && next.loc == DelayedZSet
    {
      var limit := t.maxAttempts;
      if limit <= 0 {
        limit := maxDefault;
      }
      if limit <= 0 {
        limit := 1;
      }
      next := t.(attempts := t.attempts + 1, maxAttempts := limit, worker := NO_WORKER, leaseUntil := None,
                 updatedAt := now);
      if next.attempts >= limit {
        next := next.(status := Failed, loc := DlqSet, error := if reason == "" then "MAX_ATTEMPTS" else reason);
      } else {
        next := next.(status := Pending, loc := DelayedZSet, error := "");
      }
    }

    /** Out of the in-progress set, without a lease, into the dead-letter or the delayed set. */
    method LeaveProgress(b: Base, id: Id, dead: bool, visibleAt: int)
      modifies this`inprog, this`leases, this`dlq, this`delayed
      ensures Qs() == if dead then SAddDlq(SRemInprog(old(Qs()), b, id), b, id)
                      else ZAddDelayed(SRemInprog(old(Qs()), b, id), b, id, visibleAt)
      ensures leases == old(leases) - {id}
    {
      inprog := inprog[b := Inprog(Qs(), b) - {id}];
      leases := leases - {id};
      if dead {
        dlq := dlq[b := Dlq(Qs(), b) + {id}];
      } else {
        delayed := delayed[b := Delayed(Qs(), b)[id := visibleAt]];
      }
    }

    /** Lease repair on a sample of the in-progress set. */
    method RequeueExpired(cmd: Command, tenant: Tenant, picked: seq<Id>, delays: map<Id, int>, maxDefault: int)
      modifies this
      ensures Data() == RepairAll(old(Data()), QueueBase(cmd, tenant),
                                  ExpiredOf(old(Data()), picked), delays, maxDefault)
    {
      var b := QueueBase(cmd, tenant);
      var expired := FindExpired(picked);
      for i := 0 to |expired|
        invariant RepairAll(Data(), b, expired[i..], delays, maxDefault)
                  == RepairAll(old(Data()), b, expired, delays, maxDefault)
      {
        RepairTask(b, expired[i], delays, maxDefault);
        assert expired[i..][1..] == expired[i + 1..];
      }
      assert expired[|expired|..] == [];
    }

    /** Nacks one task whose lease is gone; without a task in progress the id only leaves the set. */
    method RepairTask(b: Base, id: Id, delays: map<Id, int>, maxDefault: int)
      modifies this
      ensures Data() == RepairOne(old(Data()), b, id, delays, maxDefault)
    {
      var r := NackTask(id, NO_WORKER, DelayOf(delays, id), maxDefault, "LEASE_EXPIRED");
      if r.NackErr? {
        inprog := inprog[b := Inprog(Qs(), b) - {id}];
      }
    }

    method FindExpired(picked: seq<Id>) returns (expired: seq<Id>)
      ensures expired == ExpiredOf(Data(), picked)
    {
      expired := [];
      for i := 0 to |picked|
        invariant expired + ExpiredOf(Data(), picked[i..]) == ExpiredOf(Data(), picked)
      {
        if !(picked[i] in leases && now < leases[picked[i]].expiry) {
          expired := expired + [picked[i]];
        }
        assert picked[i..][1..] == picked[i + 1..];
      }
      assert picked[|picked|..] == [];
    }

    /** The claim script: one pop per priority list, highest first. */
    method RunClaimScript(b: Base) returns (popped: Option<Id>)
      modifies this`pending, this`inprog
      ensures (Qs(), popped) == PopScript(old(Qs()), b, MAX_PRIORITY)
    {
      var p := MAX_PRIORITY;
      while p >= MIN_PRIORITY
        invariant MIN_PRIORITY - 1 <= p <= MAX_PRIORITY
        invariant PopScript(Qs(), b, p) == PopScript(old(Qs()), b, MAX_PRIORITY)
      {
        var list := Pend(Qs(), b, p);
        if list != [] {
          var id := list[|list| - 1];
          pending := pending[(b, p) := list[..|list| - 1]];
          if id !in Inprog(Qs(), b) {
            inprog := inprog[b := Inprog(Qs(), b) + {id}];
            return Some(id);
          }
        }
        p := p - 1;
      }
      popped := None;
    }

    method RemoveGhost(b: Base, id: Id)
      modifies this`pending, this`inprog
      ensures Qs() == LRemAll(SRemInprog(old(Qs()), b, id), b, MAX_PRIORITY, id)
    {
      inprog := inprog[b := Inprog(Qs(), b) - {id}];
      ghost var q1 := Qs();
      var p := MAX_PRIORITY;
      while p >= MIN_PRIORITY
        invariant MIN_PRIORITY - 1 <= p <= MAX_PRIORITY
        invariant LRemAll(Qs(), b, p, id) == LRemAll(q1, b, MAX_PRIORITY, id)
      {
        pending := pending[(b, p) := Without(Pend(Qs(), b, p), id)];
        p := p - 1;
      }
    }

    method TakeTask(id: Id, worker: Worker, lease: int) returns (t: Task)
      requires id in tasks
      modifies this
      ensures Data() == Take(old(Data()), id, worker, lease)
      ensures t == ClaimedTask(old(Data()), old(tasks)[id], worker, lease)
    {
      t := tasks[id].(status := InProgress, loc := InprogSet, worker := worker, leaseUntil := Some(now + lease),
                      attempts := tasks[id].attempts + 1, updatedAt := now);
      leases := leases[id := Lease(worker, now + lease)];
      tasks := tasks[t.id := t];
      ttl := ttl[id := now + RETENTION];
    }

    /** Hand out a popped id, or clean it up and have the caller pop again. */
    method SettlePop(popped: Option<Id>, b: Base, ghost tries: int, flagged: set<Id>, worker: Worker, lease: int)
      returns (done: bool, r: Option<Task>)
      requires tries > 0
      modifies this
      ensures done ==> (Data(), r) == AfterPop(old(Data()), popped, b, tries, flagged, worker, lease)
      ensures !done ==> TryPop(Data(), b, tries - 1, flagged, worker, lease)
                        == AfterPop(old(Data()), popped, b, tries, flagged, worker, lease)
    {
      if popped.None? {
        return true, None;
      }
      var id := popped.value;
      if id in flagged || id !in tasks {
        RemoveGhost(b, id);
        done, r := false, None;
      } else {
        var t := TakeTask(id, worker, lease);
        done, r := true, Some(t);
      }
    }

    method PopOnce(b: Base, ghost tries: int, flagged: set<Id>, worker: Worker, lease: int)
      returns (done: bool, r: Option<Task>)
      requires tries > 0
      modifies this
      ensures done ==> (Data(), r) == TryPop(old(Data()), b, tries, flagged, worker, lease)
      ensures !done ==>
                TryPop(Data(), b, tries - 1, flagged, worker, lease)
                == TryPop(old(Data()), b, tries, flagged, worker, lease)
    {
      ghost var s := Data();
      var popped := RunClaimScript(b);
      assert Data() == s.(q := PopScript(s.q, b, MAX_PRIORITY).0);
      done, r := SettlePop(popped, b, tries, flagged, worker, lease);
    }

    /** One command of a claim: pop until an id turns out to have a record. */
    method TryPopMulti(b: Base, limit: int, flagged: set<Id>, worker: Worker, lease: int) returns (r: Option<Task>)
      modifies this
      ensures (Data(), r) == TryPop(old(Data()), b, limit, flagged, worker, lease)
    {
      var i := 0;
      while i < limit
        invariant i >= 0
        invariant TryPop(Data(), b, limit - i, flagged, worker, lease)
                  == TryPop(old(Data()), b, limit, flagged, worker, lease)
      {
        var done, taken := PopOnce(b, limit - i, flagged, worker, lease);
        if done {
          return taken;
        }
        i := i + 1;
      }
      r := None;
    }

    method ClaimTask(worker: Worker, cmds: seq<Command>, lease: int, limit: int, maxDefault: int, tenant: Tenant,
                     ws: seq<Sweep>, flagged: set<Id>) returns (r: Option<Task>)
      requires |ws| == |cmds|
      modifies this
      ensures (Data(), r) == Claim(old(Data()), worker, cmds, lease, limit, maxDefault, tenant, ws, flagged)
    {
      for i := 0 to |cmds|
        invariant SweepAll(Data(), cmds[i..], tenant, maxDefault, ws[i..])
                  == SweepAll(old(Data()), cmds, tenant, maxDefault, ws)
      {
        SweepCommand(cmds[i], tenant, maxDefault, ws[i]);
        assert cmds[i..][1..] == cmds[i + 1..] && ws[i..][1..] == ws[i + 1..];
      }
      assert cmds[|cmds|..] == [];
      ghost var s1 := Data();
      for i := 0 to |cmds|
        invariant PopFirst(Data(), cmds[i..], tenant, limit, flagged, worker, lease)
                  == PopFirst(s1, cmds, tenant, limit, flagged, worker, lease)
      {
        r := TryPopMulti(QueueBase(cmds[i], tenant), limit, flagged, worker, lease);
        if r.Some? {
          return;
        }
        assert cmds[i..][1..] == cmds[i + 1..];
      }
      r := None;
    }

    method SweepCommand(cmd: Command, tenant: Tenant, maxDefault: int, w: Sweep)
      modifies this
      ensures Data() == SweepOne(old(Data()), cmd, tenant, maxDefault, w)
    {
      MoveDueDelayed(cmd, "", true, w.legacyDue);
      if tenant != "" {
        MoveDueDelayed(cmd, tenant, false, w.tenantDue);
      }
      if w.repair {
        RequeueExpired(cmd, tenant, w.picked, w.delays, maxDefault);
      }
    }

    method HeartbeatTask(id: Id, worker: Worker, extend: int) returns (e: Option<Error>)
      modifies this
      ensures (Data(), e) == Heartbeat(old(Data()), id, worker, extend)
    {
      if id !in tasks {
        return Some(NotFound);
      }
      var t := tasks[id];
      if t.worker != worker {
        return Some(NotOwner);
      }
      t := t.(leaseUntil := Some(now + extend), updatedAt := now, loc := InprogSet);
      if id in leases && now < leases[id].expiry {
        if extend <= 0 {
          leases := leases - {id};
        } else {
          leases := leases[id := leases[id].(expiry := now + extend)];
        }
      }
      tasks := tasks[t.id := t];
      ttl := ttl[t.id := now + RETENTION];
      e := None;
    }

    method AbandonTask(id: Id, worker: Worker) returns (e: Option<Error>)
      modifies this
      ensures (Data(), e) == Abandon(old(Data()), id, worker)
    {
      if id !in tasks {
        return Some(NotFound);
      }
      var t := tasks[id];
      if t.worker != worker {
        return Some(NotOwner);
      }
      var b, prio := HomeBase(t), NormalizePriority(t.priority);
      inprog := inprog[b := Inprog(Qs(), b) - {id}];
      pending := pending[(b, prio) := [id] + Pend(Qs(), b, prio)];
      leases := leases - {id};
      tasks := tasks[t.id := t.(status := Pending, loc := PendingList, worker := NO_WORKER,
                                leaseUntil := None, updatedAt := now)];
      ttl := ttl[t.id := now + RETENTION];
      e := None;
    }

    /** Administrative cleanup of the ids the retention query returned. */
    method CleanupAged(ids: seq<Id>, skip: set<Id>)
      modifies this
      ensures Data() == CleanupExpired(old(Data()), ids, skip)
    {
      for i := 0 to |ids|
        invariant CleanupExpired(Data(), ids[i..], skip) == CleanupExpired(old(Data()), ids, skip)
      {
        if ids[i] !in skip {
          RemoveTask(ids[i]);
        }
        assert ids[i..][1..] == ids[i + 1..];
      }
      assert ids[|ids|..] == [];
    }

    method RemoveTask(id: Id)
      modifies this
      ensures Data() == CleanOne(old(Data()), id)
    {
      if id in tasks {
        var t := tasks[id];
        var b, prio := HomeBase(t), NormalizePriority(t.priority);
        tasks, ttl, leases := tasks - {id}, ttl - {id}, leases - {id};
        if t.loc == Unset || t.loc == PendingList {
          pending := pending[(b, prio) := Without(Pend(Qs(), b, prio), id)];
        }
        RemoveFromSets(b, id);
      }
    }

    method RemoveFromSets(b: Base, id: Id)
      modifies this`inprog, this`delayed, this`dlq
      ensures Qs() == SRemDlq(ZRemDelayed(SRemInprog(old(Qs()), b, id), b, id), b, id)
    {
      inprog := inprog[b := Inprog(Qs(), b) - {id}];
      delayed := delayed[b := Delayed(Qs(), b) - {id}];
      dlq := dlq[b := Dlq(Qs(), b) - {id}];
    }

    method SaveRecord(rec: ResultRecord) returns (e: Option<Error>)
      modifies this
      ensures e == if rec.taskId in old(tasks) then None else Some(NotFound)
      ensures Data() == if rec.taskId in old(tasks) then SaveResult(old(Data()), rec) else old(Data())
    {
      if rec.taskId !in tasks {
        return Some(NotFound);
      }
      results := results[rec.taskId := rec];
      tasks := tasks[rec.taskId := tasks[rec.taskId].(resultKey := "codeq:results")];
      ttl := ttl[rec.taskId := now + RETENTION];
      e := None;
    }

    method UpdateTaskOnComplete(id: Id, status: Status, error: string) returns (e: Option<Error>)
      modifies this
      ensures e == if id in old(tasks) then None else Some(NotFound)
      ensures Data() == if id in old(tasks) then CompleteTask(old(Data()), id, status, error) else old(Data())
    {
      if id !in tasks {
        return Some(NotFound);
      }
      var t := tasks[id];
      var b := HomeBase(t);
      tasks := tasks[id := t.(status := status, loc := NoLocation, worker := NO_WORKER,
                              leaseUntil := None, updatedAt := now,
                              error := if error != "" then error else t.error)];
      inprog := inprog[b := Inprog(Qs(), b) - {id}];
      leases := leases - {id};
      ttl := ttl[id := now + RETENTION];
      e := None;
    }
  }
}
