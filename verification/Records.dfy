/** What tasks carry through a run: their request, their result, and the time they wait for. */
module Records {
  import opened TaskTypes
  import opened Wrappers
  import opened RedisState
  import opened Lifecycle
  import opened Partition
  import opened Actions
  import opened Calls
  import opened Runs
  import opened Leases
  import opened ClaimOrder
  import opened Retries
  import Sequences

  // ---------- the request stays what it was ----------

  predicate SameRequest(t: Task, u: Task) {
    && t.id == u.id && t.cmd == u.cmd && t.payload == u.payload && t.priority == u.priority
    && t.webhook == u.webhook && t.tenant == u.tenant && t.createdAt == u.createdAt
  }

  lemma RequestKeptByAct(s: State, a: Action, id: Id)
    requires Inv(s) && Enabled(s, a) && id in s.tasks && id in Act(s, a).tasks
    ensures SameRequest(s.tasks[id], Act(s, a).tasks[id])
  {
    SubjectRecord(s, a, id);
  }

  lemma {:induction false} RequestKeptByActions(s: State, acts: seq<Action>, id: Id)
    requires Inv(s) && EnabledAll(s, acts) && id in s.tasks && id in ActAll(s, acts).tasks
    requires forall i :: 0 <= i < |acts| ==> !Recreates(acts[i], id)
    ensures SameRequest(s.tasks[id], ActAll(s, acts).tasks[id])
    decreases |acts|
  {
    hide Act, Inv;
    if acts != [] {
      var s1 := Act(s, acts[0]);
      ActEffect(s, acts[0]);
      assert !Recreates(acts[0], id);
      if id in s1.tasks {
        RequestKeptByAct(s, acts[0], id);
        RequestKeptByActions(s1, acts[1..], id);
      } else {
        StaysGone(s1, acts[1..], id);
      }
    }
  }

  /** In any run after its enqueue a stored task still carries the command, payload, normalized priority,
      webhook, tenant and creation time it was enqueued with. */
  lemma RequestKept(s: State, c: Call, calls: seq<Call>, maxDefault: int)
    requires Inv(s) && c.EnqueueCall? && Permitted(s, c, maxDefault)
    requires PermittedAll(Step(s, c, maxDefault), calls, maxDefault)
    requires forall i :: 0 <= i < |calls| ==> !RecreatesCall(calls[i], c.id)
    requires c.id in Run(Step(s, c, maxDefault), calls, maxDefault).tasks
    ensures var t := Run(Step(s, c, maxDefault), calls, maxDefault).tasks[c.id];
            && t.id == c.id && t.cmd == c.cmd && t.payload == c.payload && t.priority == NormalizePriority(c.priority)
            && t.webhook == c.webhook && t.tenant == c.tenant && t.createdAt == s.now
  {
    var s1 := Step(s, c, maxDefault);
    CallInv(s, c, maxDefault);
    RunPerforms(s1, calls, maxDefault);
    RunRecreates(s1, calls, maxDefault, c.id);
    RequestKeptByActions(s1, RunActions(s1, calls, maxDefault), c.id);
  }

  // ---------- one result per task ----------

  lemma ResultStep(s: State, a: Action, id: Id)
    requires Inv(s) && Enabled(s, a) && (id in s.tasks ==> Terminal(s.tasks[id]))
    ensures var r := Act(s, a).results; (id in r <==> id in s.results) && (id in r ==> r[id] == s.results[id])
  {
    if a.Submitted? {
      SubjectActive(s, a);
    }
  }

  lemma {:induction false} ResultKeptByActions(s: State, acts: seq<Action>, id: Id)
    requires Inv(s) && EnabledAll(s, acts) && (id in s.tasks ==> Terminal(s.tasks[id]))
    requires forall i :: 0 <= i < |acts| ==> !Recreates(acts[i], id)
    ensures var r := ActAll(s, acts).results; (id in r <==> id in s.results) && (id in r ==> r[id] == s.results[id])
    decreases |acts|
  {
    hide Act, Inv;
    if acts != [] {
      assert !Recreates(acts[0], id);
      ActEffect(s, acts[0]);
      TerminalStep(s, acts[0], id);
      ResultStep(s, acts[0], id);
      ResultKeptByActions(Act(s, acts[0]), acts[1..], id);
    }
  }

  /** An accepted submission stores exactly what was submitted, and no later run of calls changes it. */
  lemma ResultIsFinal(s: State, id: Id, req: SubmitRequest, calls: seq<Call>, maxDefault: int)
    requires Inv(s) && SubmitCheck(s.tasks, id, req).None?
    requires PermittedAll(Submit(s, id, req).0, calls, maxDefault)
    requires forall i :: 0 <= i < |calls| ==> !RecreatesCall(calls[i], id)
    ensures var r := Run(Submit(s, id, req).0, calls, maxDefault);
            id in r.results && r.results[id] == ResultRecord(id, req.status, req.result, req.error, s.now)
  {
    var s1 := Submit(s, id, req).0;
    ActEffect(s, Submitted(id, req));
    RunPerforms(s1, calls, maxDefault);
    RunRecreates(s1, calls, maxDefault, id);
    ResultKeptByActions(s1, RunActions(s1, calls, maxDefault), id);
  }

  // ---------- not before its time ----------

  /** Task `id` waits in the delayed set of its queue until `v`. */
  predicate WaitsUntil(s: State, id: Id, v: int) {
    && id in s.tasks && s.tasks[id].loc == DelayedZSet
    && id in Delayed(s.q, HomeBase(s.tasks[id])) && Delayed(s.q, HomeBase(s.tasks[id]))[id] == v
  }

  /** An enqueue with a future time waits for that time; an accepted nack short of the limit waits for
      its delay, not less than zero. */
  lemma EnqueueWaits(s: State, c: Call, maxDefault: int)
    requires c.EnqueueCall? && c.visibleAt.Some? && c.visibleAt.value > s.now
    ensures WaitsUntil(Step(s, c, maxDefault), c.id, c.visibleAt.value)
  {
  }

  lemma NackWaits(s: State, id: Id, worker: Worker, delay: int, maxDefault: int, reason: string)
    requires Inv(s) && Nack(s, id, worker, delay, maxDefault, reason).1.NackOk?
    requires Nack(s, id, worker, delay, maxDefault, reason).0.tasks[id].status == Pending
    ensures WaitsUntil(Nack(s, id, worker, delay, maxDefault, reason).0, id, s.now + (if delay < 0 then 0 else delay))
  {
    assert TaskOk(id, s.tasks[id]);
  }

  lemma ScoreKept(s: State, a: Action, b: Base, id: Id)
    requires Enabled(s, a) && id in Delayed(s.q, b) && (a.Ticked? || Subject(s, a) != id)
    ensures id in Delayed(Act(s, a).q, b) && Delayed(Act(s, a).q, b)[id] == Delayed(s.q, b)[id]
  {
    if a.Taken? {
    } else if a.Removed? {
    } else if a.CameDue? {
    } else {
      OtherScores(s, a, b, id);
    }
  }

  lemma OtherScores(s: State, a: Action, b: Base, id: Id)
    requires Enabled(s, a) && id in Delayed(s.q, b) && !a.Taken? && !a.Removed? && !a.CameDue?
    requires a.Ticked? || Subject(s, a) != id
    ensures id in Delayed(Act(s, a).q, b) && Delayed(Act(s, a).q, b)[id] == Delayed(s.q, b)[id]
  {
    if a.Created? || a.Nacked? {
      AddedScores(s, a, b, id);
    }
  }

  lemma AddedScores(s: State, a: Action, b: Base, id: Id)
    requires Enabled(s, a) && id in Delayed(s.q, b) && (a.Created? || a.Nacked?) && a.id != id
    ensures id in Delayed(Act(s, a).q, b) && Delayed(Act(s, a).q, b)[id] == Delayed(s.q, b)[id]
  {
  }

  lemma WaitingKeptByAct(s: State, a: Action, id: Id, v: int)
    requires Inv(s) && Enabled(s, a) && WaitsUntil(s, id, v) && s.now < v && !Removes(a, id)
    ensures WaitsUntil(Act(s, a), id, v) && Act(s, a).tasks[id] == s.tasks[id]
  {
    if !a.Ticked? {
      NotSubject(s, a, id, v);
    }
    ActEffect(s, a);
    ScoreKept(s, a, HomeBase(s.tasks[id]), id);
  }

  lemma NotSubject(s: State, a: Action, id: Id, v: int)
    requires Inv(s) && Enabled(s, a) && WaitsUntil(s, id, v) && s.now < v && !Removes(a, id) && !a.Ticked?
    ensures Subject(s, a) != id
  {
    assert TaskOk(id, s.tasks[id]);
    if a.CameDue? {
      DueAtHome(s, a);
    } else if a.Taken? {
      TakenIsPending(s, a);
    }
  }

  lemma DueAtHome(s: State, a: Action)
    requires Inv(s) && Enabled(s, a) && a.CameDue?
    ensures a.id in s.tasks && QueueBase(a.cmd, a.from) == HomeBase(s.tasks[a.id])
    ensures Delayed(s.q, HomeBase(s.tasks[a.id]))[a.id] <= s.now
  {
    assert In(s.q, a.id, DelayedAt(QueueBase(a.cmd, a.from)));
  }

  lemma {:induction false} WaitingKeptByActions(s: State, acts: seq<Action>, id: Id, v: int)
    requires Inv(s) && EnabledAll(s, acts) && WaitsUntil(s, id, v) && ActAll(s, acts).now < v
    requires forall i :: 0 <= i < |acts| ==> !Removes(acts[i], id)
    ensures WaitsUntil(ActAll(s, acts), id, v) && ActAll(s, acts).tasks[id] == s.tasks[id]
    decreases |acts|
  {
    hide Act, Inv, WaitsUntil;
    if acts != [] {
      ClockGrows(s, acts);
      assert !Removes(acts[0], id);
      WaitingKeptByAct(s, acts[0], id, v);
      ActEffect(s, acts[0]);
      WaitingKeptByActions(Act(s, acts[0]), acts[1..], id, v);
    }
  }

  predicate Removes(a: Action, id: Id) {
    a.Removed? && a.id == id
  }

  predicate CleansUp(c: Call, id: Id) {
    c.CleanupCall? && id in c.ids
  }

  lemma CallRemovesNot(s: State, c: Call, maxDefault: int, id: Id)
    requires Inv(s) && Permitted(s, c, maxDefault) && !CleansUp(c, id)
    ensures forall i :: 0 <= i < |ActionsOf(s, c, maxDefault)| ==> !Removes(ActionsOf(s, c, maxDefault)[i], id)
  {
    if c.ClaimCall? {
      ClaimRemovesNone(s, c, maxDefault);
    } else if c.CleanupCall? {
      CleansOnly(s, c.ids, c.skip, c.before);
    }
  }

  lemma {:induction false} RunRemovesNot(s: State, calls: seq<Call>, maxDefault: int, id: Id)
    requires Inv(s) && PermittedAll(s, calls, maxDefault) && forall i :: 0 <= i < |calls| ==> !CleansUp(calls[i], id)
    ensures forall i :: 0 <= i < |RunActions(s, calls, maxDefault)| ==>
              !Removes(RunActions(s, calls, maxDefault)[i], id)
    decreases |calls|
  {
    if calls != [] {
      assert !CleansUp(calls[0], id);
      CallRemovesNot(s, calls[0], maxDefault, id);
      CallInv(s, calls[0], maxDefault);
      RunRemovesNot(Step(s, calls[0], maxDefault), calls[1..], maxDefault, id);
    }
  }

  /** Not before its time: a task that waits until `v` is neither claimed nor changed by any run of calls
      that stays before `v`, unless a cleanup lists it. */
  lemma NotBeforeItsTime(s: State, calls: seq<Call>, maxDefault: int, id: Id, v: int)
    requires Inv(s) && PermittedAll(s, calls, maxDefault) && WaitsUntil(s, id, v)
    requires Run(s, calls, maxDefault).now < v && forall i :: 0 <= i < |calls| ==> !CleansUp(calls[i], id)
    ensures WaitsUntil(Run(s, calls, maxDefault), id, v) && Run(s, calls, maxDefault).tasks[id] == s.tasks[id]
  {
    RunPerforms(s, calls, maxDefault);
    RunRemovesNot(s, calls, maxDefault, id);
    WaitingKeptByActions(s, RunActions(s, calls, maxDefault), id, v);
  }

  function DueOf(z: map<Id, int>, max: int): set<Id> {
    set x | x in z && z[x] <= max
  }

  /** The due entries of a queue. */
  function DueIn(s: State, b: Base): set<Id> {
    DueOf(Delayed(s.q, b), s.now)
  }

  /** A batch whose limit the due members do not exceed lists every one of them. */
  lemma BatchListsDue(z: map<Id, int>, max: int, limit: int, ids: seq<Id>, x: Id)
    requires DueBatch(z, max, limit, ids) && x in DueOf(z, max) && |DueOf(z, max)| <= limit
    ensures x in ids
  {
    if x !in ids {
      Sequences.CountElements(ids);
      var listed := Sequences.Elements(ids);
      assert listed <= DueOf(z, max) - {x};
      SubsetCount(listed, DueOf(z, max) - {x});
    }
  }

  lemma SubsetCount(a: set<Id>, b: set<Id>)
    requires a <= b
    ensures |a| <= |b|
  {
    assert b == a + (b - a);
  }

  /** Once due, a waiting task is made pending by the sweeps of the next claim on its command, if its
      queue is the tenant-less one or the claimed tenant's and holds no more due tasks than a sweep
      takes. */
  lemma DueIsSwept(s: State, cmd: Command, tenant: Tenant, limit: int, w: Sweep, id: Id, v: int)
    requires Inv(s) && NoColon(cmd) && SweepAnswers(s, cmd, tenant, limit, w)
    requires WaitsUntil(s, id, v) && v <= s.now
    requires HomeBase(s.tasks[id]) == QueueBase(cmd, "") || HomeBase(s.tasks[id]) == QueueBase(cmd, tenant)
    requires |DueIn(s, HomeBase(s.tasks[id]))| <= if limit <= 0 then 200 else limit
    ensures var r := SweepDelayed(s, cmd, tenant, w);
            id in r.tasks && r.tasks[id].loc == PendingList && In(r.q, id, Where(r.tasks[id]))
  {
    var home := HomeBase(s.tasks[id]);
    var s1 := MoveDue(s, cmd, "", true, w.legacyDue);
    if home == QueueBase(cmd, "") {
      BatchListsDue(Delayed(s.q, home), s.now, SweepLimit(limit), w.legacyDue, id);
      MovedIsPending(s, cmd, "", true, w.legacyDue, id);
    } else {
      LegacyLeaves(s, cmd, w.legacyDue, home, id);
      BatchListsDue(Delayed(s1.q, home), s.now, SweepLimit(limit), w.tenantDue, id);
    }
    if tenant != "" {
      MovedIsPending(s1, cmd, tenant, false, w.tenantDue, id);
    }
    SweptIsPlaced(s, cmd, tenant, limit, w, id);
  }

  lemma SweptIsPlaced(s: State, cmd: Command, tenant: Tenant, limit: int, w: Sweep, id: Id)
    requires Inv(s) && NoColon(cmd) && SweepAnswers(s, cmd, tenant, limit, w)
    ensures var r := SweepDelayed(s, cmd, tenant, w);
            id in r.tasks && r.tasks[id].loc == PendingList ==> In(r.q, id, Where(r.tasks[id]))
  {
    SweepDelayedPerforms(s, cmd, tenant, limit, w);
    var r := SweepDelayed(s, cmd, tenant, w);
    if id in r.tasks {
      assert TaskOk(id, r.tasks[id]);
    }
  }

  lemma {:induction false} MovedIsPending(s: State, cmd: Command, from: Tenant, legacy: bool, ids: seq<Id>, id: Id)
    requires id in s.tasks && (id in ids || s.tasks[id].loc == PendingList)
    ensures var r := MoveDue(s, cmd, from, legacy, ids); id in r.tasks && r.tasks[id].loc == PendingList
    decreases |ids|
  {
    if ids != [] {
      MovedIsPending(MoveOne(s, cmd, from, legacy, ids[0]), cmd, from, legacy, ids[1..], id);
    }
  }

  /** The legacy sweep leaves the delayed sets of other queues alone. */
  lemma {:induction false} LegacyLeaves(s: State, cmd: Command, ids: seq<Id>, b: Base, id: Id)
    requires b != QueueBase(cmd, "") && id in s.tasks
    ensures var r := MoveDue(s, cmd, "", true, ids); id in r.tasks && Delayed(r.q, b) == Delayed(s.q, b)
    decreases |ids|
  {
    if ids != [] {
      LegacyLeaves(MoveOne(s, cmd, "", true, ids[0]), cmd, ids[1..], b, id);
    }
  }

  // ---------- what a claim and a heartbeat give the worker ----------

  lemma PopReturnsRecord(s: State, cmds: seq<Command>, tenant: Tenant, limit: int,
                         flagged: set<Id>, worker: Worker, lease: int)
    requires Inv(s) && flagged !! s.tasks.Keys && worker != NO_WORKER && lease > 0
    requires PopFirst(s, cmds, tenant, limit, flagged, worker, lease).1.Some?
    ensures var (r, t) := PopFirst(s, cmds, tenant, limit, flagged, worker, lease);
            && t.value.id in r.tasks && r.tasks[t.value.id] == t.value && t.value.status == InProgress
            && t.value.worker == worker && t.value.leaseUntil == Some(r.now + lease)
  {
    hide Act, Inv;
    PopFirstResult(s, cmds, tenant, limit, flagged, worker, lease);
    PopFirstPerforms(s, cmds, tenant, limit, flagged, worker, lease);
    var a := TakeActions(s.q, cmds, tenant, limit, worker, lease)[0];
    PerformOne(s, a);
    TakenRecord(s, a);
  }

  lemma TakenRecord(s: State, a: Action)
    requires Inv(s) && Enabled(s, a) && a.Taken? && Subject(s, a) in s.tasks
    ensures var t := ClaimedTask(s, s.tasks[Subject(s, a)], a.worker, a.lease);
            t.id in Act(s, a).tasks && Act(s, a).tasks[t.id] == t && Act(s, a).now == s.now
  {
    assert TaskOk(Subject(s, a), s.tasks[Subject(s, a)]);
  }

  /** The task a claim returns is the record it has stored: in progress, owned by the caller. */
  lemma ClaimReturnsRecord(s: State, c: Call, maxDefault: int)
    requires Inv(s) && c.ClaimCall? && Permitted(s, c, maxDefault) && ClaimResult(s, c, maxDefault).Some?
    ensures var t := ClaimResult(s, c, maxDefault).value;
            var r := Step(s, c, maxDefault);
            && t.id in r.tasks && r.tasks[t.id] == t && t.status == InProgress
            && t.worker == c.worker && t.leaseUntil == Some(s.now + c.lease)
  {
    hide Step, ClaimResult, PopFirst, SweepAll, Inv;
    SweepClean(s, c, maxDefault);
    ClaimIs(s, c, maxDefault);
    PopReturnsRecord(SweepAll(s, c.cmds, c.tenant, maxDefault, c.ws), c.cmds, c.tenant,
                     c.limit, c.flagged, c.worker, c.lease);
    ClaimHolds(s, c, maxDefault);
  }

  /** `t` is a task of `tenant` and, up to letter case, of one of the commands. */
  predicate Serves(cmds: seq<Command>, tenant: Tenant, t: Task) {
    t.tenant == tenant && exists i :: 0 <= i < |cmds| && Lower(cmds[i]) == Lower(t.cmd)
  }

  lemma {:induction false} PopServes(s: State, cmds: seq<Command>, tenant: Tenant, limit: int,
                                     flagged: set<Id>, worker: Worker, lease: int)
    requires Inv(s) && flagged !! s.tasks.Keys && worker != NO_WORKER && lease > 0
    requires forall i :: 0 <= i < |cmds| ==> NoColon(cmds[i])
    ensures var r := PopFirst(s, cmds, tenant, limit, flagged, worker, lease).1;
            r.Some? ==> Serves(cmds, tenant, r.value)
    decreases |cmds|
  {
    hide Inv;
    if cmds != [] {
      var b := QueueBase(cmds[0], tenant);
      TryPopTakesTop(s, b, limit, flagged, worker, lease);
      var p := Top(s.q, b, MAX_PRIORITY);
      if limit > 0 && p >= MIN_PRIORITY {
        HeadIsAtHome(s, b, p);
        var t := s.tasks[Head(s.q, b, p)];
        QueueBaseSeparates(cmds[0], tenant, t.cmd, t.tenant);
        assert Lower(cmds[0]) == Lower(t.cmd);
      } else {
        PopServes(s, cmds[1..], tenant, limit, flagged, worker, lease);
        assert forall i :: 0 <= i < |cmds[1..]| ==> cmds[1..][i] == cmds[i + 1];
      }
    }
  }

  /** Tenant isolation: after any run of calls, a claim returns only a task of the tenant it names and of
      one of the commands it lists. */
  lemma TenantIsolation(s: State, calls: seq<Call>, maxDefault: int, c: Call)
    requires Inv(s) && PermittedAll(s, calls, maxDefault)
    requires c.ClaimCall? && Permitted(Run(s, calls, maxDefault), c, maxDefault)
    ensures var r := ClaimResult(Run(s, calls, maxDefault), c, maxDefault);
            r.Some? ==> Serves(c.cmds, c.tenant, r.value)
  {
    hide PopFirst, SweepAll, Inv, Act;
    RunPerforms(s, calls, maxDefault);
    ActAllInv(s, RunActions(s, calls, maxDefault));
    var s1 := Run(s, calls, maxDefault);
    SweepClean(s1, c, maxDefault);
    ClaimIs(s1, c, maxDefault);
    PopServes(SweepAll(s1, c.cmds, c.tenant, maxDefault, c.ws), c.cmds, c.tenant,
              c.limit, c.flagged, c.worker, c.lease);
  }

  lemma ClaimIs(s: State, c: Call, maxDefault: int)
    requires c.ClaimCall? && Permitted(s, c, maxDefault)
    ensures var s1 := SweepAll(s, c.cmds, c.tenant, maxDefault, c.ws);
            (Step(s, c, maxDefault), ClaimResult(s, c, maxDefault))
            == PopFirst(s1, c.cmds, c.tenant, c.limit, c.flagged, c.worker, c.lease)
            && c.worker != NO_WORKER && c.lease > 0
  {
  }

  lemma SweepClean(s: State, c: Call, maxDefault: int)
    requires Inv(s) && c.ClaimCall? && Permitted(s, c, maxDefault)
    ensures var s1 := SweepAll(s, c.cmds, c.tenant, maxDefault, c.ws); Inv(s1) && c.flagged !! s1.tasks.Keys
  {
    SweepAllInv(s, c.cmds, c.tenant, c.limit, maxDefault, c.ws);
  }

  /** A heartbeat of the holder renews a live lease for the extension; a lease that has run out stays
      gone, although the call succeeds. */
  lemma HeartbeatRenews(s: State, id: Id, w: Worker, extend: int)
    requires Inv(s) && OwnerCheck(s, id, w).None? && w != NO_WORKER && extend > 0
    ensures var r := Heartbeat(s, id, w, extend).0;
            && Heartbeat(s, id, w, extend).1.None?
            && (LeaseLive(r, id) <==> LeaseLive(s, id))
            && (LeaseLive(s, id) ==> Holds(r, id, w, s.now + extend))
  {
    assert TaskOk(id, s.tasks[id]);
  }
}
