/** Where the guarantees of the queue end: calls outside what the services check, and exactly
    when they do harm. */
module Boundaries {
  import opened TaskTypes
  import opened Wrappers
  import opened RedisState
  import opened Lifecycle
  import opened Partition
  import opened Actions
  import opened Calls
  import opened Runs

  /** An owner check that passes although nobody owns the task: the call names no worker. */
  predicate Unowned(s: State, id: Id, worker: Worker) {
    worker == NO_WORKER && id in s.tasks && s.tasks[id].status != InProgress
  }

  /** Abandon keeps the invariant and never revives a finished task if and only if it is not called
      without a worker id on a task that is not in progress. */
  lemma AbandonSafe(s: State, id: Id, worker: Worker)
    requires Inv(s)
    ensures var r := Abandon(s, id, worker).0;
            (Inv(r) && (id in s.tasks && Terminal(s.tasks[id]) ==> r.tasks[id] == s.tasks[id]))
            <==> !Unowned(s, id, worker)
  {
    var r := Abandon(s, id, worker).0;
    if id in s.tasks {
      var t := s.tasks[id];
      assert TaskOk(id, t);
      if Unowned(s, id, worker) {
        AbandonUnowned(s, id);
      } else if OwnerCheck(s, id, worker).None? {
        AbandonInv(s, id, worker);
      }
    }
  }

  lemma AbandonUnowned(s: State, id: Id)
    requires Inv(s) && Unowned(s, id, NO_WORKER)
    ensures var r := Abandon(s, id, NO_WORKER).0;
            !(Inv(r) && (Terminal(s.tasks[id]) ==> r.tasks[id] == s.tasks[id]))
  {
    var t := s.tasks[id];
    var r := Abandon(s, id, NO_WORKER).0;
    assert TaskOk(id, t);
    var b, p := HomeBase(t), NormalizePriority(t.priority);
    var q1 := SRemInprog(s.q, b, id);
    if t.loc == PendingList {
      assert In(s.q, id, PendingAt(b, p)) && In(q1, id, PendingAt(b, p));
      var l := Pend(q1, b, p);
      var i :| 0 <= i < |l| && l[i] == id;
      assert Pend(r.q, b, p) == [id] + l;
      assert Pend(r.q, b, p)[0] == id && Pend(r.q, b, p)[i + 1] == id;
    } else if t.loc == DelayedZSet {
      assert In(s.q, id, DelayedAt(b)) && In(r.q, id, DelayedAt(b));
    } else if t.loc == DlqSet {
      assert In(s.q, id, DlqAt(b)) && In(r.q, id, DlqAt(b));
    }
  }

  /** Heartbeat keeps the invariant if and only if it is not called without a worker id on a task
      that is not in progress. */
  lemma HeartbeatSafe(s: State, id: Id, worker: Worker, extend: int)
    requires Inv(s)
    ensures Inv(Heartbeat(s, id, worker, extend).0) <==> !Unowned(s, id, worker)
  {
    var r := Heartbeat(s, id, worker, extend).0;
    if id in s.tasks {
      assert TaskOk(id, s.tasks[id]);
      if Unowned(s, id, worker) {
        assert !TaskOk(id, r.tasks[id]);
      } else if OwnerCheck(s, id, worker).None? {
        HeartbeatInv(s, id, worker, extend);
      }
    }
  }

  /** A nack without a worker id skips the ownership check: it always keeps the invariant, succeeds
      exactly when the task is in progress, ends its lease then, live or not, and else changes nothing. */
  lemma AnonymousNack(s: State, id: Id, delay: int, maxDefault: int, reason: string)
    requires Inv(s)
    ensures var (r, a) := Nack(s, id, NO_WORKER, delay, maxDefault, reason);
            Inv(r) && (a.NackOk? <==> id in s.tasks && s.tasks[id].status == InProgress)
            && (LeaseLive(s, id) ==> a.NackOk?) && (a.NackOk? ==> !LeaseLive(r, id)) && (a.NackErr? ==> r == s)
  {
    if NackCheck(s, id, NO_WORKER).None? {
      NackApplyInv(s, id, delay, maxDefault, reason);
    }
  }

  /** The sweep over a command's tenant-less queue puts a due task where it belongs if and only if
      the swept command together with the task's tenant names the task's own queue. */
  lemma LegacySweepSafe(s: State, cmd: Command, id: Id)
    requires Inv(s) && id in Delayed(s.q, QueueBase(cmd, ""))
    ensures id in s.tasks
    ensures Inv(MoveOne(s, cmd, "", true, id)) <==> QueueBase(cmd, s.tasks[id].tenant) == HomeBase(s.tasks[id])
  {
    assert In(s.q, id, DelayedAt(QueueBase(cmd, "")));
    var t := s.tasks[id];
    var r := MoveOne(s, cmd, "", true, id);
    var p := NormalizePriority(t.priority);
    var q1 := ZRemDelayed(s.q, QueueBase(cmd, ""), id);
    if QueueBase(cmd, t.tenant) == HomeBase(t) {
      PlacedOnlyAt(s, id);
      DelayedToPending(s.q, HomeBase(t), p, id);
      assert TaskOk(id, t);
      MovedInv(s, r, id, Requeued(s, t));
    } else {
      assert In(LPush(q1, QueueBase(cmd, t.tenant), p, id), id, PendingAt(QueueBase(cmd, t.tenant), p));
      assert r.tasks[id] == Requeued(s, t);
    }
  }

  /** A command with a colon reads another tenant's delayed set: queue keys do collide. */
  lemma QueueKeysCollide()
    ensures QueueBase("a:b", "") == QueueBase("a", "b")
    ensures QueueBase("a:b", "b") != QueueBase("a", "b")
  {
    assert Lower("a:b") == "a:b";
    assert Lower("a") == "a";
    assert QueueBase("a:b", "").name == "codeq:q:a:b";
    assert QueueBase("a", "b").name == "codeq:q:a:b";
    assert QueueBase("a:b", "b").name == "codeq:q:a:b:b";
  }

  lemma LowerKeepsColon(s: string)
    ensures NoColon(Lower(s)) <==> NoColon(s)
  {
    assert |Lower(s)| == |s|;
  }

  /** A claim attempt that returns a task returns one of the claimed tenant and command if and only if
      the command holds no colon. */
  lemma PopIsolated(s: State, cmd: Command, tenant: Tenant, tries: int, flagged: set<Id>, worker: Worker, lease: int)
    requires Inv(s) && flagged !! s.tasks.Keys && worker != NO_WORKER && lease > 0
    requires TryPop(s, QueueBase(cmd, tenant), tries, flagged, worker, lease).1.Some?
    ensures var t := TryPop(s, QueueBase(cmd, tenant), tries, flagged, worker, lease).1.value;
            (t.tenant == tenant && Lower(t.cmd) == Lower(cmd)) <==> NoColon(cmd)
  {
    var b := QueueBase(cmd, tenant);
    TryPopTakesTop(s, b, tries, flagged, worker, lease);
    var p := Top(s.q, b, MAX_PRIORITY);
    HeadIsAtHome(s, b, p);
    var t := s.tasks[Head(s.q, b, p)];
    LowerKeepsColon(cmd);
    LowerKeepsColon(t.cmd);
    if NoColon(cmd) {
      QueueBaseSeparates(cmd, tenant, t.cmd, t.tenant);
    }
  }

  // ---------- a ghost filter that is wrong ----------

  ghost predicate Absent(q: Queues, id: Id) {
    forall pl :: !In(q, id, pl)
  }

  lemma RPopAbsent(q: Queues, b: Base, p: int, id: Id)
    requires Pend(q, b, p) != [] && Absent(q, id)
    ensures Absent(RPop(q, b, p), id) && Head(q, b, p) != id
  {
    var r := RPop(q, b, p);
    assert !In(q, id, PendingAt(b, p));
    assert id !in Pend(r, b, p);
    forall pl ensures !In(r, id, pl) {
      assert !In(q, id, pl);
    }
  }

  lemma {:induction false} PopScriptAbsent(q: Queues, b: Base, p: int, id: Id)
    requires Absent(q, id)
    ensures Absent(PopScript(q, b, p).0, id) && PopScript(q, b, p).1 != Some(id)
    decreases p + 1
  {
    if p >= MIN_PRIORITY {
      if Pend(q, b, p) == [] {
        PopScriptAbsent(q, b, p - 1, id);
      } else {
        RPopAbsent(q, b, p, id);
        var q1 := RPop(q, b, p);
        if Head(q, b, p) in Inprog(q1, b) {
          PopScriptAbsent(q1, b, p - 1, id);
        } else {
          assert forall pl :: !In(SAddInprog(q1, b, Head(q, b, p)), id, pl);
        }
      }
    }
  }

  lemma {:induction false} LRemAllGone(q: Queues, b: Base, p: int, id: Id)
    ensures forall x, pl :: In(LRemAll(q, b, p, id), x, pl) ==> In(q, x, pl)
    ensures forall p1 :: MIN_PRIORITY <= p1 <= p ==> !In(LRemAll(q, b, p, id), id, PendingAt(b, p1))
    decreases p + 1
  {
    if p >= MIN_PRIORITY {
      LRemAllGone(LRem(q, b, p, id), b, p - 1, id);
    }
  }

  /** `id` is in no queue of `r`, and its record is `t`. */
  ghost predicate Lost(r: State, id: Id, t: Task) {
    Absent(r.q, id) && id in r.tasks && r.tasks[id] == t
  }

  lemma {:induction false} TryPopLost(s: State, b: Base, tries: int, flagged: set<Id>,
                                      worker: Worker, lease: int, id: Id, t: Task)
    requires Lost(s, id, t) && TasksOk(s)
    ensures Lost(TryPop(s, b, tries, flagged, worker, lease).0, id, t)
    decreases tries
  {
    if tries > 0 {
      var (q1, popped) := PopScript(s.q, b, MAX_PRIORITY);
      PopScriptAbsent(s.q, b, MAX_PRIORITY, id);
      if popped.Some? {
        if popped.value in flagged || popped.value !in s.tasks {
          LRemAllAbsent(q1, b, popped.value, id);
          TryPopLost(s.(q := LRemAll(SRemInprog(q1, b, popped.value), b, MAX_PRIORITY, popped.value)),
                     b, tries - 1, flagged, worker, lease, id, t);
        } else {
          assert TaskOk(popped.value, s.tasks[popped.value]);
        }
      }
    }
  }

  lemma LRemAllAbsent(q: Queues, b: Base, x: Id, id: Id)
    requires Absent(q, id)
    ensures Absent(LRemAll(SRemInprog(q, b, x), b, MAX_PRIORITY, x), id)
  {
    LRemAllGone(SRemInprog(q, b, x), b, MAX_PRIORITY, x);
  }

  /** A claim attempt keeps the invariant if and only if the ghost filter does not report the stored
      task it pops first; a task it does report is lost: stored, pending, and in no queue. */
  lemma GhostFilterSafe(s: State, b: Base, tries: int, flagged: set<Id>, worker: Worker, lease: int)
    requires Inv(s) && worker != NO_WORKER && tries > 0 && Top(s.q, b, MAX_PRIORITY) >= MIN_PRIORITY
    ensures var r := TryPop(s, b, tries, flagged, worker, lease).0;
            var id := Head(s.q, b, Top(s.q, b, MAX_PRIORITY));
            && id in s.tasks && (Inv(r) <==> id !in flagged)
            && (id in flagged ==> s.tasks[id].status == Pending && Lost(r, id, s.tasks[id]))
  {
    var p := Top(s.q, b, MAX_PRIORITY);
    var id := Head(s.q, b, p);
    FirstPop(s, b, tries, flagged, worker, lease);
    TaskIsOk(s, id);
    if id in flagged {
      GhostLoses(s, b, p, tries, flagged, worker, lease);
    } else {
      TakeInv(s, b, p, worker, lease);
    }
  }

  lemma GhostLoses(s: State, b: Base, p: int, tries: int, flagged: set<Id>, worker: Worker, lease: int)
    requires Inv(s) && Pend(s.q, b, p) != []
    requires Head(s.q, b, p) in s.tasks && Where(s.tasks[Head(s.q, b, p)]) == PendingAt(b, p)
    ensures var id := Head(s.q, b, p);
            var s2 := s.(q := LRemAll(SRemInprog(PopTop(s.q, b, p), b, id), b, MAX_PRIORITY, id));
            var r := TryPop(s2, b, tries - 1, flagged, worker, lease).0;
            !Inv(r) && Lost(r, id, s.tasks[id])
  {
    var id := Head(s.q, b, p);
    GhostDropped(s, b, p);
    var s2 := s.(q := LRemAll(SRemInprog(PopTop(s.q, b, p), b, id), b, MAX_PRIORITY, id));
    assert TasksOk(s2);
    TryPopLost(s2, b, tries - 1, flagged, worker, lease, id, s.tasks[id]);
    LostBreaks(TryPop(s2, b, tries - 1, flagged, worker, lease).0, id, s.tasks[id]);
  }

  lemma LostBreaks(r: State, id: Id, t: Task)
    requires Lost(r, id, t) && Where(t) != Nowhere
    ensures !Inv(r)
  {
    assert !In(r.q, id, Where(t));
  }

  lemma FirstPop(s: State, b: Base, tries: int, flagged: set<Id>, worker: Worker, lease: int)
    requires Inv(s) && tries > 0 && Top(s.q, b, MAX_PRIORITY) >= MIN_PRIORITY
    ensures var p := Top(s.q, b, MAX_PRIORITY);
            var id := Head(s.q, b, p);
            var q1 := PopTop(s.q, b, p);
            && id in s.tasks && Where(s.tasks[id]) == PendingAt(b, p)
            && TryPop(s, b, tries, flagged, worker, lease).0 ==
                 if id in flagged then
                   TryPop(s.(q := LRemAll(SRemInprog(q1, b, id), b, MAX_PRIORITY, id)),
                          b, tries - 1, flagged, worker, lease).0
                 else Take(s.(q := q1), id, worker, lease)
  {
    hide PopScript;
    HeadIsPending(s.q, b, Top(s.q, b, MAX_PRIORITY));
    PendingNotInprog(s, b);
    PopScriptTakesTop(s.q, b, MAX_PRIORITY);
  }

  lemma GhostDropped(s: State, b: Base, p: int)
    requires Inv(s) && Pend(s.q, b, p) != []
    ensures Absent(LRemAll(SRemInprog(PopTop(s.q, b, p), b, Head(s.q, b, p)), b, MAX_PRIORITY, Head(s.q, b, p)),
                   Head(s.q, b, p))
  {
    var id := Head(s.q, b, p);
    assert In(s.q, id, PendingAt(b, p));
    PlacedOnlyAt(s, id);
    PendingToInprog(s.q, b, p);
    LRemAllGone(SRemInprog(PopTop(s.q, b, p), b, id), b, MAX_PRIORITY, id);
  }
}
