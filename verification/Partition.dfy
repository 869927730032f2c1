/** The joint invariant of the queue data, and that every repository call keeps it. */
module Partition {
  import opened TaskTypes
  import opened Wrappers
  import opened RedisState
  import opened Lifecycle
  import opened Sequences

  /** A task's status, location hint and owner agree. */
  predicate TaskOk(id: Id, t: Task) {
    && t.id == id
    && MIN_PRIORITY <= t.priority <= MAX_PRIORITY
    && NoColon(t.cmd)
    && (t.worker != NO_WORKER <==> t.status == InProgress)
    && match t.loc
       case PendingList => t.status == Pending
       case DelayedZSet => t.status == Pending
       case InprogSet => t.status == InProgress
       case DlqSet => t.status == Failed
       case NoLocation => t.status == Completed || t.status == Failed
       case Unset => false
  }

  ghost predicate TasksOk(s: State) {
    forall id :: id in s.tasks ==> TaskOk(id, s.tasks[id])
  }

  /** An id is stored exactly where its record says, and nowhere else. */
  ghost predicate Placed(s: State) {
    forall id, pl :: In(s.q, id, pl) <==> pl != Nowhere && id in s.tasks && Where(s.tasks[id]) == pl
  }

  ghost predicate LeasesOk(s: State) {
    forall id :: id in s.leases ==>
      id in s.tasks && s.tasks[id].status == InProgress && s.leases[id].worker == s.tasks[id].worker
  }

  /** The retention index holds every stored task, 24 hours after its last touch. */
  ghost predicate TtlOk(s: State) {
    && s.ttl.Keys == s.tasks.Keys
    && forall id :: id in s.tasks ==> s.ttl[id] == s.tasks[id].updatedAt + RETENTION && s.tasks[id].updatedAt <= s.now
  }

  ghost predicate Inv(s: State) {
    TasksOk(s) && Placed(s) && ListsDistinct(s.q) && LeasesOk(s) && TtlOk(s)
  }

  lemma TaskIsOk(s: State, id: Id)
    requires Inv(s) && id in s.tasks
    ensures TaskOk(id, s.tasks[id])
  {
  }

  /** `r` stores `id` at `pl` only, and everything else as `q` does. */
  ghost predicate Relocated(q: Queues, r: Queues, id: Id, pl: Place) {
    forall x, p :: In(r, x, p) <==> if x == id then p != Nowhere && p == pl else In(q, x, p)
  }

  /** `r` differs from `s` only in task `id`: its record is now `t`, and it is stored where `t` says. */
  ghost predicate Moved(s: State, r: State, id: Id, t: Task) {
    && r.now == s.now
    && r.tasks == s.tasks[id := t]
    && r.ttl == s.ttl[id := s.now + RETENTION]
    && t.updatedAt == s.now
    && Relocated(s.q, r.q, id, Where(t))
    && (forall x :: x in r.leases && x != id ==> x in s.leases && r.leases[x] == s.leases[x])
    && (id in r.leases ==> t.status == InProgress && r.leases[id].worker == t.worker)
  }

  lemma MovedTasks(s: State, r: State, id: Id, t: Task)
    requires TasksOk(s) && TaskOk(id, t) && r.tasks == s.tasks[id := t]
    ensures TasksOk(r)
  {
  }

  lemma MovedPlaced(s: State, r: State, id: Id, t: Task)
    requires Placed(s) && Moved(s, r, id, t)
    ensures Placed(r)
  {
  }

  lemma MovedLeases(s: State, r: State, id: Id, t: Task)
    requires LeasesOk(s) && Moved(s, r, id, t)
    ensures LeasesOk(r)
  {
  }

  lemma MovedTtl(s: State, r: State, id: Id, t: Task)
    requires TtlOk(s) && Moved(s, r, id, t)
    ensures TtlOk(r)
  {
  }

  lemma MovedInv(s: State, r: State, id: Id, t: Task)
    requires Inv(s) && TaskOk(id, t) && Moved(s, r, id, t) && ListsDistinct(r.q)
    ensures Inv(r)
  {
    MovedTasks(s, r, id, t);
    MovedPlaced(s, r, id, t);
    MovedLeases(s, r, id, t);
    MovedTtl(s, r, id, t);
  }

  /** Nothing but `home` holds `id`. */
  ghost predicate OnlyAt(q: Queues, id: Id, home: Place) {
    forall p :: In(q, id, p) ==> p == home
  }

  lemma PlacedOnlyAt(s: State, id: Id)
    requires Placed(s)
    ensures OnlyAt(s.q, id, if id in s.tasks then Where(s.tasks[id]) else Nowhere)
  {
  }

  lemma InprogToPending(q: Queues, b: Base, p: int, id: Id)
    requires OnlyAt(q, id, InprogAt(b)) && ListsDistinct(q)
    ensures var r := LPush(SRemInprog(q, b, id), b, p, id);
            Relocated(q, r, id, PendingAt(b, p)) && ListsDistinct(r)
  {
    var q1 := SRemInprog(q, b, id);
    assert forall b1, p1 :: Pend(q1, b1, p1) == Pend(q, b1, p1);
    assert !In(q, id, PendingAt(b, p));
    LPushDistinct(q1, b, p, id);
  }

  lemma DelayedToPending(q: Queues, b: Base, p: int, id: Id)
    requires OnlyAt(q, id, DelayedAt(b)) && ListsDistinct(q)
    ensures var r := LPush(ZRemDelayed(q, b, id), b, p, id);
            Relocated(q, r, id, PendingAt(b, p)) && ListsDistinct(r)
  {
    var q1 := ZRemDelayed(q, b, id);
    assert forall b1, p1 :: Pend(q1, b1, p1) == Pend(q, b1, p1);
    assert !In(q, id, PendingAt(b, p));
    LPushDistinct(q1, b, p, id);
  }

  lemma SamePendingDistinct(q: Queues, r: Queues)
    requires ListsDistinct(q) && r.pending == q.pending
    ensures ListsDistinct(r)
  {
    assert forall b, p :: Pend(r, b, p) == Pend(q, b, p);
  }

  lemma InprogToDlq(q: Queues, b: Base, id: Id)
    requires OnlyAt(q, id, InprogAt(b))
    ensures Relocated(q, SAddDlq(SRemInprog(q, b, id), b, id), id, DlqAt(b))
  {
  }

  lemma InprogToDelayed(q: Queues, b: Base, id: Id, score: int)
    requires OnlyAt(q, id, InprogAt(b))
    ensures Relocated(q, ZAddDelayed(SRemInprog(q, b, id), b, id, score), id, DelayedAt(b))
  {
  }

  lemma NackApplyInv(s: State, id: Id, delay: int, maxDefault: int, reason: string)
    requires Inv(s) && id in s.tasks && s.tasks[id].status == InProgress
    ensures var t1 := NackedTask(s, s.tasks[id], maxDefault, reason);
            var r := NackApply(s, id, delay, maxDefault, reason);
            Moved(s, r, id, t1) && Inv(r)
  {
    var t := s.tasks[id];
    var t1 := NackedTask(s, t, maxDefault, reason);
    var r := NackApply(s, id, delay, maxDefault, reason);
    PlacedOnlyAt(s, id);
    InprogToDlq(s.q, HomeBase(t), id);
    InprogToDelayed(s.q, HomeBase(t), id, s.now + (if delay < 0 then 0 else delay));
    SamePendingDistinct(s.q, r.q);
    assert TaskOk(id, t1);
    MovedInv(s, r, id, t1);
  }

  // ---------- enqueue ----------

  lemma NowhereToPending(q: Queues, b: Base, p: int, id: Id)
    requires OnlyAt(q, id, Nowhere) && ListsDistinct(q)
    ensures Relocated(q, LPush(q, b, p, id), id, PendingAt(b, p)) && ListsDistinct(LPush(q, b, p, id))
  {
    assert !In(q, id, PendingAt(b, p));
    LPushDistinct(q, b, p, id);
  }

  lemma EnqueueInv(s: State, id: Id, cmd: Command, payload: string, priority: int, webhook: string,
                   maxAttempts: int, visibleAt: Option<int>, tenant: Tenant)
    requires Inv(s) && id !in s.tasks && NoColon(cmd)
    ensures var r := Enqueue(s, id, cmd, payload, priority, webhook, maxAttempts, visibleAt, tenant);
            Moved(s, r, id, NewTask(s, id, cmd, payload, priority, webhook, maxAttempts, visibleAt, tenant)) && Inv(r)
  {
    var t := NewTask(s, id, cmd, payload, priority, webhook, maxAttempts, visibleAt, tenant);
    var r := Enqueue(s, id, cmd, payload, priority, webhook, maxAttempts, visibleAt, tenant);
    PlacedOnlyAt(s, id);
    NowhereToPending(s.q, HomeBase(t), t.priority, id);
    if t.loc == DelayedZSet {
      SamePendingDistinct(s.q, r.q);
    }
    MovedInv(s, r, id, t);
  }

  // ---------- delayed sweep ----------

  lemma MoveOneInv(s: State, cmd: Command, from: Tenant, legacy: bool, id: Id)
    requires Inv(s) && NoColon(cmd) && (legacy ==> from == "")
    requires id in Delayed(s.q, QueueBase(cmd, from))
    ensures var r := MoveOne(s, cmd, from, legacy, id);
            id in s.tasks && Moved(s, r, id, Requeued(s, s.tasks[id])) && Inv(r) && r.leases == s.leases
  {
    assert In(s.q, id, DelayedAt(QueueBase(cmd, from)));
    var t := s.tasks[id];
    assert HomeBase(t) == QueueBase(cmd, from);
    if legacy {
      QueueBaseSeparates(cmd, from, t.cmd, t.tenant);
    }
    var r := MoveOne(s, cmd, from, legacy, id);
    PlacedOnlyAt(s, id);
    DelayedToPending(s.q, HomeBase(t), NormalizePriority(t.priority), id);
    assert TaskOk(id, Requeued(s, t));
    MovedInv(s, r, id, Requeued(s, t));
  }

  // ---------- heartbeat, abandon, submit ----------

  lemma HeartbeatInv(s: State, id: Id, worker: Worker, extend: int)
    requires Inv(s) && worker != NO_WORKER && OwnerCheck(s, id, worker).None?
    ensures var r := Heartbeat(s, id, worker, extend).0;
            var t := s.tasks[id].(leaseUntil := Some(s.now + extend), updatedAt := s.now, loc := InprogSet);
            Moved(s, r, id, t) && Inv(r)
  {
    var t := s.tasks[id].(leaseUntil := Some(s.now + extend), updatedAt := s.now, loc := InprogSet);
    var r := Heartbeat(s, id, worker, extend).0;
    HeartbeatMoves(s, id, worker, extend);
    MovedInv(s, r, id, t);
  }

  lemma HeartbeatMoves(s: State, id: Id, worker: Worker, extend: int)
    requires Placed(s) && LeasesOk(s) && worker != NO_WORKER && OwnerCheck(s, id, worker).None?
             && TaskOk(id, s.tasks[id])
    ensures var r := Heartbeat(s, id, worker, extend).0;
            var t := s.tasks[id].(leaseUntil := Some(s.now + extend), updatedAt := s.now, loc := InprogSet);
            Moved(s, r, id, t) && TaskOk(id, t) && r.q == s.q
  {
    var r := Heartbeat(s, id, worker, extend).0;
    var t := s.tasks[id].(leaseUntil := Some(s.now + extend), updatedAt := s.now, loc := InprogSet);
    assert Where(t) == Where(s.tasks[id]);
    PlacedStays(s, r, id, t);
  }

  lemma PlacedStays(s: State, r: State, id: Id, t: Task)
    requires Placed(s) && id in s.tasks && r.q == s.q && Where(t) == Where(s.tasks[id])
    ensures Relocated(s.q, r.q, id, Where(t))
  {
  }

  lemma AbandonInv(s: State, id: Id, worker: Worker)
    requires Inv(s) && worker != NO_WORKER && OwnerCheck(s, id, worker).None?
    ensures var r := Abandon(s, id, worker).0;
            Moved(s, r, id, Requeued(s, s.tasks[id])) && Inv(r)
  {
    var t := s.tasks[id];
    var r := Abandon(s, id, worker).0;
    assert TaskOk(id, t);
    PlacedOnlyAt(s, id);
    InprogToPending(s.q, HomeBase(t), NormalizePriority(t.priority), id);
    MovedInv(s, r, id, Requeued(s, t));
  }

  function SubmittedTask(s: State, t: Task, req: SubmitRequest): Task {
    CompletedTask(s, t.(resultKey := "codeq:results"), req.status, req.error)
  }

  lemma SubmitInv(s: State, id: Id, req: SubmitRequest)
    requires Inv(s) && SubmitCheck(s.tasks, id, req).None?
    ensures var r := SubmitApply(s, id, req);
            Moved(s, r, id, SubmittedTask(s, s.tasks[id], req)) && Inv(r)
  {
    var t := s.tasks[id];
    var t1 := SubmittedTask(s, t, req);
    var r := SubmitApply(s, id, req);
    SubmitMoves(s, id, req);
    MovedInv(s, r, id, t1);
  }

  lemma SubmitMoves(s: State, id: Id, req: SubmitRequest)
    requires Placed(s) && ListsDistinct(s.q) && SubmitCheck(s.tasks, id, req).None? && TaskOk(id, s.tasks[id])
    ensures var r := SubmitApply(s, id, req);
            var t1 := SubmittedTask(s, s.tasks[id], req);
            Moved(s, r, id, t1) && ListsDistinct(r.q) && TaskOk(id, t1)
  {
    PlacedOnlyAt(s, id);
    SamePendingDistinct(s.q, SubmitApply(s, id, req).q);
  }

  // ---------- cleanup ----------

  /** `r` is `s` without task `id`. */
  ghost predicate Dropped(s: State, r: State, id: Id) {
    && r.now == s.now
    && r.tasks == s.tasks - {id}
    && r.ttl == s.ttl - {id}
    && r.leases == s.leases - {id}
    && Relocated(s.q, r.q, id, Nowhere)
  }

  lemma DroppedInv(s: State, r: State, id: Id)
    requires Inv(s) && Dropped(s, r, id) && ListsDistinct(r.q)
    ensures Inv(r)
  {
    DroppedPlaced(s, r, id);
  }

  lemma DroppedPlaced(s: State, r: State, id: Id)
    requires Placed(s) && Dropped(s, r, id)
    ensures Placed(r)
  {
  }

  lemma CleanQueues(q: Queues, b: Base, p: int, id: Id, home: Place, lrem: bool)
    requires OnlyAt(q, id, home) && ListsDistinct(q)
    requires home in {Nowhere, PendingAt(b, p), InprogAt(b), DelayedAt(b), DlqAt(b)}
    requires home == PendingAt(b, p) ==> lrem
    ensures var q1 := if lrem then LRem(q, b, p, id) else q;
            var r := SRemDlq(ZRemDelayed(SRemInprog(q1, b, id), b, id), b, id);
            Relocated(q, r, id, Nowhere) && ListsDistinct(r)
  {
    LRemDistinct(q, b, p, id);
    var q1 := if lrem then LRem(q, b, p, id) else q;
    SamePendingDistinct(q1, SRemDlq(ZRemDelayed(SRemInprog(q1, b, id), b, id), b, id));
  }

  lemma CleanOneInv(s: State, id: Id)
    requires Inv(s) && id in s.tasks
    ensures var r := CleanOne(s, id);
            Dropped(s, r, id) && Inv(r)
  {
    var t := s.tasks[id];
    assert TaskOk(id, t);
    PlacedOnlyAt(s, id);
    CleanQueues(s.q, HomeBase(t), NormalizePriority(t.priority), id, Where(t), t.loc == Unset || t.loc == PendingList);
    DroppedInv(s, CleanOne(s, id), id);
  }

  // ---------- claim ----------

  /** The highest priority at most `p` whose pending list is not empty, or -1. */
  function Top(q: Queues, b: Base, p: int): (r: int)
    ensures MIN_PRIORITY - 1 <= r <= p || (p < MIN_PRIORITY && r == MIN_PRIORITY - 1)
    ensures r >= MIN_PRIORITY ==> Pend(q, b, r) != []
    ensures forall x :: MIN_PRIORITY <= x <= p && x > r ==> Pend(q, b, x) == []
    decreases p + 1, q
  {
    if p < MIN_PRIORITY then MIN_PRIORITY - 1 else if Pend(q, b, p) != [] then p else Top(q, b, p - 1)
  }

  /** The oldest id of a non-empty pending list. */
  function Head(q: Queues, b: Base, p: int): Id
    requires Pend(q, b, p) != []
  {
    Pend(q, b, p)[|Pend(q, b, p)| - 1]
  }

  function PopTop(q: Queues, b: Base, p: int): Queues
    requires Pend(q, b, p) != []
  {
    SAddInprog(RPop(q, b, p), b, Head(q, b, p))
  }

  /** With no pending id of `b` in progress, the script pops exactly one id: the oldest of the
      highest non-empty priority. */
  lemma {:induction false} PopScriptTakesTop(q: Queues, b: Base, p: int)
    requires forall x, p1 :: In(q, x, PendingAt(b, p1)) ==> !In(q, x, InprogAt(b))
    ensures Top(q, b, p) < MIN_PRIORITY ==> PopScript(q, b, p) == (q, None)
    ensures Top(q, b, p) >= MIN_PRIORITY ==>
              PopScript(q, b, p) == (PopTop(q, b, Top(q, b, p)), Some(Head(q, b, Top(q, b, p))))
    decreases p + 1
  {
    if p >= MIN_PRIORITY {
      if Pend(q, b, p) == [] {
        PopScriptTakesTop(q, b, p - 1);
      } else {
        assert In(q, Head(q, b, p), PendingAt(b, p));
        assert !In(q, Head(q, b, p), InprogAt(b));
      }
    }
  }

  lemma PendingToInprog(q: Queues, b: Base, p: int)
    requires ListsDistinct(q) && Pend(q, b, p) != [] && OnlyAt(q, Head(q, b, p), PendingAt(b, p))
    ensures Relocated(q, PopTop(q, b, p), Head(q, b, p), InprogAt(b)) && ListsDistinct(PopTop(q, b, p))
  {
    var l := Pend(q, b, p);
    var n := |l| - 1;
    var q1 := RPop(q, b, p);
    assert NoRepeats(l);
    assert l == l[..n] + [l[n]];
    assert forall x :: x in l[..n] <==> x in l && x != l[n];
    assert forall x :: In(q1, x, PendingAt(b, p)) <==> x in l[..n];
    assert forall x :: In(q, x, PendingAt(b, p)) <==> x in l;
    RPopDistinct(q, b, p);
    SamePendingDistinct(q1, PopTop(q, b, p));
  }

  lemma RPopDistinct(q: Queues, b: Base, p: int)
    requires ListsDistinct(q) && Pend(q, b, p) != []
    ensures ListsDistinct(RPop(q, b, p))
  {
    var r := RPop(q, b, p);
    assert NoRepeats(Pend(q, b, p));
    forall b1, p1 ensures NoRepeats(Pend(r, b1, p1)) {
      assert (b1, p1) != (b, p) ==> Pend(r, b1, p1) == Pend(q, b1, p1);
    }
  }

  lemma TakeInv(s: State, b: Base, p: int, worker: Worker, lease: int)
    requires Inv(s) && Pend(s.q, b, p) != [] && worker != NO_WORKER
    ensures var id := Head(s.q, b, p);
            && id in s.tasks
            && var r := Take(s.(q := PopTop(s.q, b, p)), id, worker, lease);
               Moved(s, r, id, ClaimedTask(s, s.tasks[id], worker, lease)) && Inv(r)
  {
    var id := Head(s.q, b, p);
    assert In(s.q, id, PendingAt(b, p));
    var t := s.tasks[id];
    assert TaskOk(id, t);
    TakeMoves(s, b, p, worker, lease);
    MovedInv(s, Take(s.(q := PopTop(s.q, b, p)), id, worker, lease), id, ClaimedTask(s, t, worker, lease));
  }

  lemma TakeMoves(s: State, b: Base, p: int, worker: Worker, lease: int)
    requires Placed(s) && ListsDistinct(s.q) && Pend(s.q, b, p) != [] && worker != NO_WORKER
    requires Head(s.q, b, p) in s.tasks && TaskOk(Head(s.q, b, p), s.tasks[Head(s.q, b, p)])
    ensures var id := Head(s.q, b, p);
            var r := Take(s.(q := PopTop(s.q, b, p)), id, worker, lease);
            var t := ClaimedTask(s, s.tasks[id], worker, lease);
            Moved(s, r, id, t) && ListsDistinct(r.q) && TaskOk(id, t)
  {
    hide In, PopTop, Relocated, NormalizePriority;
    var id := Head(s.q, b, p);
    HeadIsPending(s.q, b, p);
    PlacedOnlyAt(s, id);
    PendingToInprog(s.q, b, p);
    assert Where(ClaimedTask(s, s.tasks[id], worker, lease)) == InprogAt(b);
  }

  lemma HeadIsPending(q: Queues, b: Base, p: int)
    requires Pend(q, b, p) != []
    ensures In(q, Head(q, b, p), PendingAt(b, p))
  {
  }
}
