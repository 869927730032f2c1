/** What holds of every task in every run of repository calls. */
module Runs {
  import opened TaskTypes
  import opened RedisState
  import opened Lifecycle
  import opened Partition
  import opened Actions
  import opened Calls

  function EmptyState(now: int): State {
    State(now, Queues(map[], map[], map[], map[]), map[], map[], map[], map[])
  }

  lemma EmptyInv(now: int)
    ensures Inv(EmptyState(now))
  {
    var s := EmptyState(now);
    assert forall id, pl :: !In(s.q, id, pl);
  }

  // ---------- every task is in one place ----------

  /** One position at which an id can be stored. */
  datatype Slot =
    | ListSlot(base: Base, prio: int, index: int)
    | DelayedSlot(base: Base)
    | InprogSlot(base: Base)
    | DlqSlot(base: Base)

  predicate At(q: Queues, id: Id, slot: Slot) {
    match slot
    case ListSlot(b, p, i) => 0 <= i < |Pend(q, b, p)| && Pend(q, b, p)[i] == id
    case DelayedSlot(b) => id in Delayed(q, b)
    case InprogSlot(b) => id in Inprog(q, b)
    case DlqSlot(b) => id in Dlq(q, b)
  }

  ghost predicate StoredOnce(q: Queues, id: Id) {
    exists slot :: At(q, id, slot) && forall other :: At(q, id, other) ==> other == slot
  }

  ghost predicate StoredNowhere(q: Queues, id: Id) {
    forall slot :: !At(q, id, slot)
  }

  /** A task that has a result: nothing is left to do for it. */
  predicate Finished(t: Task) {
    t.status == Completed || (t.status == Failed && t.loc == NoLocation)
  }

  function PlaceOf(slot: Slot): Place {
    match slot
    case ListSlot(b, p, _) => PendingAt(b, p)
    case DelayedSlot(b) => DelayedAt(b)
    case InprogSlot(b) => InprogAt(b)
    case DlqSlot(b) => DlqAt(b)
  }

  lemma AtIsIn(q: Queues, id: Id, slot: Slot)
    ensures At(q, id, slot) ==> In(q, id, PlaceOf(slot))
  {
  }

  lemma InHasSlot(q: Queues, id: Id, pl: Place) returns (slot: Slot)
    requires In(q, id, pl)
    ensures At(q, id, slot) && PlaceOf(slot) == pl
  {
    match pl
    case PendingAt(b, p) =>
      var i :| 0 <= i < |Pend(q, b, p)| && Pend(q, b, p)[i] == id;
      slot := ListSlot(b, p, i);
    case DelayedAt(b) => slot := DelayedSlot(b);
    case InprogAt(b) => slot := InprogSlot(b);
    case DlqAt(b) => slot := DlqSlot(b);
  }

  lemma InvStoredOnce(s: State, id: Id)
    requires Inv(s)
    ensures id in s.tasks && Finished(s.tasks[id]) ==> StoredNowhere(s.q, id)
    ensures id in s.tasks && !Finished(s.tasks[id]) ==> StoredOnce(s.q, id)
    ensures id !in s.tasks ==> StoredNowhere(s.q, id)
  {
    forall slot | At(s.q, id, slot) ensures id in s.tasks && PlaceOf(slot) == Where(s.tasks[id]) {
      AtIsIn(s.q, id, slot);
    }
    if id in s.tasks {
      var t := s.tasks[id];
      assert TaskOk(id, t);
      if !Finished(t) {
        assert In(s.q, id, Where(t));
        var slot := InHasSlot(s.q, id, Where(t));
        forall other | At(s.q, id, other) ensures other == slot {
        }
      }
    }
  }

  /** In every reachable state an unfinished task occupies exactly one position of the queues, a
      finished or deleted one occupies none, and the record tells the position, the status and the
      owner consistently; a lease key exists only for a task in progress and names its owner. */
  lemma PartitionOverRuns(now: int, calls: seq<Call>, maxDefault: int)
    requires PermittedAll(EmptyState(now), calls, maxDefault)
    ensures var r := Run(EmptyState(now), calls, maxDefault);
            && (forall id :: id in r.tasks ==>
                 && TaskOk(id, r.tasks[id])
                 && (if Finished(r.tasks[id]) then StoredNowhere(r.q, id) else StoredOnce(r.q, id)))
            && (forall id, slot :: At(r.q, id, slot) ==> id in r.tasks && PlaceOf(slot) == Where(r.tasks[id]))
            && (forall id :: id in r.leases ==>
                 id in r.tasks && r.tasks[id].status == InProgress && r.leases[id].worker == r.tasks[id].worker)
  {
    var s := EmptyState(now);
    EmptyInv(now);
    RunPerforms(s, calls, maxDefault);
    ActAllInv(s, RunActions(s, calls, maxDefault));
    var r := Run(s, calls, maxDefault);
    forall id ensures id in r.tasks ==> if Finished(r.tasks[id]) then StoredNowhere(r.q, id) else StoredOnce(r.q, id) {
      InvStoredOnce(r, id);
    }
    forall id, slot | At(r.q, id, slot) ensures id in r.tasks && PlaceOf(slot) == Where(r.tasks[id]) {
      AtIsIn(r.q, id, slot);
    }
  }

  // ---------- finished tasks stay finished, and nothing is lost ----------

  predicate Terminal(t: Task) {
    t.status == Completed || t.status == Failed
  }

  predicate Recreates(a: Action, id: Id) {
    a.Created? && a.id == id
  }

  lemma TerminalStep(s: State, a: Action, id: Id)
    requires Inv(s) && Enabled(s, a) && !Recreates(a, id)
    requires id in s.tasks ==> Terminal(s.tasks[id])
    ensures var r := Act(s, a);
            id in r.tasks ==> id in s.tasks && r.tasks[id] == s.tasks[id]
  {
    hide Act;
    ActEffect(s, a);
    if !a.Ticked? && !a.Removed? && !a.Created? {
      SubjectActive(s, a);
    }
  }

  /** Only tasks that are pending or in progress can be acted on, cleanup aside. */
  lemma SubjectActive(s: State, a: Action)
    requires Inv(s) && Enabled(s, a) && !a.Ticked? && !a.Removed? && !a.Created?
    ensures Subject(s, a) in s.tasks && !Terminal(s.tasks[Subject(s, a)])
  {
    var id := Subject(s, a);
    if a.CameDue? {
      assert In(s.q, id, DelayedAt(QueueBase(a.cmd, a.from)));
    } else if a.Taken? {
      assert In(s.q, id, PendingAt(a.base, Top(s.q, a.base, MAX_PRIORITY)));
    }
    assert TaskOk(id, s.tasks[id]);
  }

  lemma {:induction false} TerminalActions(s: State, acts: seq<Action>, id: Id)
    requires Inv(s) && EnabledAll(s, acts) && (id in s.tasks ==> Terminal(s.tasks[id]))
    requires forall i :: 0 <= i < |acts| ==> !Recreates(acts[i], id)
    ensures var r := ActAll(s, acts);
            id in r.tasks ==> id in s.tasks && r.tasks[id] == s.tasks[id]
    decreases |acts|
  {
    if acts != [] {
      ActEffect(s, acts[0]);
      TerminalStep(s, acts[0], id);
      TerminalActions(Act(s, acts[0]), acts[1..], id);
    }
  }

  predicate RecreatesCall(c: Call, id: Id) {
    c.EnqueueCall? && c.id == id
  }

  /** No resurrection: once a task is completed or failed, no run of calls changes its record again
      except by deleting it, and it never gets back into a pending list, the delayed set or the
      in-progress set. (Its id is not enqueued a second time.) */
  lemma NoResurrection(s: State, calls: seq<Call>, maxDefault: int, id: Id)
    requires Inv(s) && PermittedAll(s, calls, maxDefault)
    requires id in s.tasks && Terminal(s.tasks[id])
    requires forall i :: 0 <= i < |calls| ==> !RecreatesCall(calls[i], id)
    ensures var r := Run(s, calls, maxDefault);
            && (id in r.tasks ==> r.tasks[id] == s.tasks[id])
            && (forall pl :: In(r.q, id, pl) ==> pl.DlqAt? && id in r.tasks)
  {
    RunPerforms(s, calls, maxDefault);
    var acts := RunActions(s, calls, maxDefault);
    ActAllInv(s, acts);
    RunRecreates(s, calls, maxDefault, id);
    TerminalActions(s, acts, id);
    var r := Run(s, calls, maxDefault);
    forall pl | In(r.q, id, pl) ensures pl.DlqAt? && id in r.tasks {
      assert TaskOk(id, r.tasks[id]);
    }
  }

  /** No call but an enqueue of `id` has an action that creates `id`. */
  lemma {:induction false} RunRecreates(s: State, calls: seq<Call>, maxDefault: int, id: Id)
    requires PermittedAll(s, calls, maxDefault)
    requires forall i :: 0 <= i < |calls| ==> !RecreatesCall(calls[i], id)
    ensures forall i :: 0 <= i < |RunActions(s, calls, maxDefault)| ==>
              !Recreates(RunActions(s, calls, maxDefault)[i], id)
    decreases |calls|
  {
    if calls != [] {
      assert !RecreatesCall(calls[0], id);
      CallRecreates(s, calls[0], maxDefault, id);
      RunRecreates(Step(s, calls[0], maxDefault), calls[1..], maxDefault, id);
    }
  }

  lemma CallRecreates(s: State, c: Call, maxDefault: int, id: Id)
    requires c.ClaimCall? ==> |c.ws| == |c.cmds|
    requires !RecreatesCall(c, id)
    ensures forall i :: 0 <= i < |ActionsOf(s, c, maxDefault)| ==> !Recreates(ActionsOf(s, c, maxDefault)[i], id)
  {
    if c.ClaimCall? {
      SweepAllAreSweeps(s, c.cmds, c.tenant, maxDefault, c.ws);
      TakesOnly(SweepAll(s, c.cmds, c.tenant, maxDefault, c.ws).q, c.cmds, c.tenant, c.limit, c.worker, c.lease);
    } else if c.CleanupCall? {
      CleansOnly(s, c.ids, c.skip, c.before);
    }
  }

  lemma {:induction false} TakesOnly(q: Queues, cmds: seq<Command>, tenant: Tenant,
                                     limit: int, worker: Worker, lease: int)
    ensures forall i :: 0 <= i < |TakeActions(q, cmds, tenant, limit, worker, lease)| ==>
              TakeActions(q, cmds, tenant, limit, worker, lease)[i].Taken?
    decreases |cmds|
  {
    if cmds != [] {
      TakesOnly(q, cmds[1..], tenant, limit, worker, lease);
    }
  }

  lemma {:induction false} CleansOnly(s: State, ids: seq<Id>, skip: set<Id>, before: int)
    ensures forall i :: 0 <= i < |CleanActions(s, ids, skip, before)| ==>
              CleanActions(s, ids, skip, before)[i].Removed? && CleanActions(s, ids, skip, before)[i].id in ids
              && CleanActions(s, ids, skip, before)[i].before == before
    decreases |ids|
  {
    if ids != [] {
      CleansOnly(s, ids[1..], skip, before);
      CleansOnly(CleanOne(s, ids[0]), ids[1..], skip, before);
    }
  }

  /** A second submission or nack of a terminal task is turned down and changes nothing. */
  lemma TerminalRejects(s: State, id: Id, req: SubmitRequest, worker: Worker, delay: int,
                        maxDefault: int, reason: string)
    requires Inv(s) && id in s.tasks && Terminal(s.tasks[id])
    ensures Submit(s, id, req) == (s, SubmitErr(NotInProgress))
    ensures Nack(s, id, worker, delay, maxDefault, reason)
              == (s, NackErr(if worker != NO_WORKER then NotOwner else NotInProgress))
  {
    assert TaskOk(id, s.tasks[id]);
  }

  lemma {:induction false} KeptByActions(s: State, acts: seq<Action>, id: Id)
    requires Inv(s) && EnabledAll(s, acts) && id in s.tasks
    requires forall i :: 0 <= i < |acts| ==> !acts[i].Removed?
    ensures id in ActAll(s, acts).tasks
    decreases |acts|
  {
    if acts != [] {
      ActEffect(s, acts[0]);
      assert !acts[0].Removed?;
      KeptByActions(Act(s, acts[0]), acts[1..], id);
    }
  }

  lemma {:induction false} CleanupDropsListed(s: State, ids: seq<Id>, skip: set<Id>, id: Id)
    requires id in s.tasks && id !in CleanupExpired(s, ids, skip).tasks
    ensures id in ids
    decreases |ids|
  {
    if ids != [] && ids[0] != id {
      CleanupDropsListed(if ids[0] in skip then s else CleanOne(s, ids[0]), ids[1..], skip, id);
    }
  }

  /** A cleanup may take the task: it lists it, and 24 hours have passed from its last touch to `before`. */
  predicate AgedOut(s: State, c: Call, id: Id) {
    c.CleanupCall? && id in c.ids && id in s.tasks && s.tasks[id].updatedAt + RETENTION <= c.before
  }

  lemma ClaimRemovesNone(s: State, c: Call, maxDefault: int)
    requires Inv(s) && Permitted(s, c, maxDefault) && c.ClaimCall?
    ensures var acts := ActionsOf(s, c, maxDefault); forall i :: 0 <= i < |acts| ==> !acts[i].Removed?
  {
    SweepAllAreSweeps(s, c.cmds, c.tenant, maxDefault, c.ws);
    TakesOnly(SweepAll(s, c.cmds, c.tenant, maxDefault, c.ws).q, c.cmds, c.tenant, c.limit, c.worker, c.lease);
  }

  lemma CleanupLoses(s: State, c: Call, maxDefault: int, id: Id)
    requires Inv(s) && Permitted(s, c, maxDefault) && c.CleanupCall? && id in s.tasks
    ensures id in Step(s, c, maxDefault).tasks || AgedOut(s, c, id)
  {
    if id !in Step(s, c, maxDefault).tasks {
      CleanupDropsListed(s, c.ids, c.skip, id);
    }
  }

  lemma CallLoses(s: State, c: Call, maxDefault: int, id: Id)
    requires Inv(s) && Permitted(s, c, maxDefault) && id in s.tasks
    ensures id in Step(s, c, maxDefault).tasks || AgedOut(s, c, id)
  {
    if c.CleanupCall? {
      CleanupLoses(s, c, maxDefault, id);
    } else {
      StepPerforms(s, c, maxDefault);
      if c.ClaimCall? {
        ClaimRemovesNone(s, c, maxDefault);
      }
      KeptByActions(s, ActionsOf(s, c, maxDefault), id);
    }
  }

  /** No loss: a record disappears during a run only at a cleanup call whose `before` is at least
      24 hours after the task's last touch. */
  lemma {:induction false} NoLoss(s: State, calls: seq<Call>, maxDefault: int, id: Id)
    requires Inv(s) && PermittedAll(s, calls, maxDefault)
    requires id in s.tasks && id !in Run(s, calls, maxDefault).tasks
    ensures exists i :: 0 <= i < |calls| && PermittedAll(s, calls[..i], maxDefault)
                        && AgedOut(Run(s, calls[..i], maxDefault), calls[i], id)
    decreases |calls|
  {
    if calls != [] {
      var s1 := Step(s, calls[0], maxDefault);
      CallInv(s, calls[0], maxDefault);
      CallLoses(s, calls[0], maxDefault, id);
      if id in s1.tasks {
        NoLoss(s1, calls[1..], maxDefault, id);
        var i :| 0 <= i < |calls[1..]| && PermittedAll(s1, calls[1..][..i], maxDefault)
                 && AgedOut(Run(s1, calls[1..][..i], maxDefault), calls[1..][i], id);
        var pre := calls[..i + 1];
        assert pre[0] == calls[0] && pre[1..] == calls[1..][..i];
        assert PermittedAll(s, pre, maxDefault) && AgedOut(Run(s, pre, maxDefault), calls[i + 1], id);
      } else {
        assert calls[..0] == [];
        assert PermittedAll(s, calls[..0], maxDefault) && AgedOut(Run(s, calls[..0], maxDefault), calls[0], id);
      }
    }
  }

  lemma CallInv(s: State, c: Call, maxDefault: int)
    requires Inv(s) && Permitted(s, c, maxDefault)
    ensures Inv(Step(s, c, maxDefault))
  {
    StepPerforms(s, c, maxDefault);
    ActAllInv(s, ActionsOf(s, c, maxDefault));
  }
}
