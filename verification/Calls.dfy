/** Repository calls, and that each is a sequence of single-task actions. */
module Calls {
  import opened TaskTypes
  import opened Wrappers
  import opened RedisState
  import opened Lifecycle
  import opened Partition
  import opened Actions
  import opened Sequences

  datatype Call =
    | EnqueueCall(id: Id, cmd: Command, payload: string, priority: int, webhook: string, maxAttempts: int,
                  visibleAt: Option<int>, tenant: Tenant)
    | ClaimCall(worker: Worker, cmds: seq<Command>, lease: int, limit: int, tenant: Tenant,
                ws: seq<Sweep>, flagged: set<Id>)
    | HeartbeatCall(id: Id, worker: Worker, extend: int)
    | AbandonCall(id: Id, worker: Worker)
    | NackCall(id: Id, worker: Worker, delay: int, reason: string)
    | SubmitCall(id: Id, req: SubmitRequest)
    | CleanupCall(limit: int, before: int, ids: seq<Id>, skip: set<Id>)
    | TickCall(seconds: nat)

  /** What the services ask of callers and Redis promises in return: fresh ids, worker ids that are
      not empty, positive leases, commands without a colon, query answers that fit the data, and a
      ghost filter that reports no stored task. */
  ghost predicate Permitted(s: State, c: Call, maxDefault: int) {
    match c
    case EnqueueCall(id, cmd, _, _, _, _, _, _) => id !in s.tasks && NoColon(cmd)
    case ClaimCall(worker, cmds, lease, limit, tenant, ws, flagged) =>
      && worker != NO_WORKER && lease > 0
      && (forall i :: 0 <= i < |cmds| ==> NoColon(cmds[i]))
      && |ws| == |cmds|
      && SweepAllAnswers(s, cmds, tenant, limit, maxDefault, ws)
      && flagged !! s.tasks.Keys
    case HeartbeatCall(_, worker, _) => worker != NO_WORKER
    case AbandonCall(_, worker) => worker != NO_WORKER
    case NackCall(_, worker, _, _) => worker != NO_WORKER
    case SubmitCall(_, _) => true
    case CleanupCall(limit, before, ids, _) => DueBatch(s.ttl, before, CleanupLimit(limit), ids)
    case TickCall(_) => true
  }

  function Step(s: State, c: Call, maxDefault: int): State
    requires c.ClaimCall? ==> |c.ws| == |c.cmds|
  {
    match c
    case EnqueueCall(id, cmd, payload, priority, webhook, maxAttempts, visibleAt, tenant) =>
      Enqueue(s, id, cmd, payload, priority, webhook, maxAttempts, visibleAt, tenant)
    case ClaimCall(worker, cmds, lease, limit, tenant, ws, flagged) =>
      Claim(s, worker, cmds, lease, limit, maxDefault, tenant, ws, flagged).0
    case HeartbeatCall(id, worker, extend) => Heartbeat(s, id, worker, extend).0
    case AbandonCall(id, worker) => Abandon(s, id, worker).0
    case NackCall(id, worker, delay, reason) => Nack(s, id, worker, delay, maxDefault, reason).0
    case SubmitCall(id, req) => Submit(s, id, req).0
    case CleanupCall(_, _, ids, skip) => CleanupExpired(s, ids, skip)
    case TickCall(d) => s.(now := s.now + d)
  }

  // ---------- the actions of a call ----------

  function DueActions(cmd: Command, from: Tenant, legacy: bool, ids: seq<Id>): seq<Action>
    decreases |ids|
  {
    if ids == [] then [] else [CameDue(cmd, from, legacy, ids[0])] + DueActions(cmd, from, legacy, ids[1..])
  }

  function RepairActions(ids: seq<Id>, delays: map<Id, int>, maxDefault: int): seq<Action>
    decreases |ids|
  {
    if ids == [] then []
    else
      [Nacked(ids[0], NO_WORKER, DelayOf(delays, ids[0]), maxDefault, "LEASE_EXPIRED")]
      + RepairActions(ids[1..], delays, maxDefault)
  }

  function SweepActions(s: State, cmd: Command, tenant: Tenant, maxDefault: int, w: Sweep): seq<Action> {
    (DueActions(cmd, "", true, w.legacyDue)
     + (if tenant == "" then [] else DueActions(cmd, tenant, false, w.tenantDue)))
    + (if w.repair then RepairActions(ExpiredOf(SweepDelayed(s, cmd, tenant, w), w.picked), w.delays, maxDefault)
       else [])
  }

  function SweepAllActions(s: State, cmds: seq<Command>, tenant: Tenant, maxDefault: int, ws: seq<Sweep>): seq<Action>
    requires |ws| == |cmds|
    decreases |cmds|
  {
    if cmds == [] then []
    else SweepActions(s, cmds[0], tenant, maxDefault, ws[0])
         + SweepAllActions(SweepOne(s, cmds[0], tenant, maxDefault, ws[0]), cmds[1..], tenant, maxDefault, ws[1..])
  }

  /** The take of a claim: from the first listed command that has a pending task. */
  function TakeActions(q: Queues, cmds: seq<Command>, tenant: Tenant, limit: int,
                       worker: Worker, lease: int): seq<Action>
    decreases |cmds|
  {
    if cmds == [] then []
    else if limit > 0 && Top(q, QueueBase(cmds[0], tenant), MAX_PRIORITY) >= MIN_PRIORITY then
      [Taken(QueueBase(cmds[0], tenant), worker, lease)]
    else TakeActions(q, cmds[1..], tenant, limit, worker, lease)
  }

  function CleanActions(s: State, ids: seq<Id>, skip: set<Id>, before: int): seq<Action>
    decreases |ids|
  {
    if ids == [] then []
    else if ids[0] in skip || ids[0] !in s.tasks then CleanActions(s, ids[1..], skip, before)
    else [Removed(ids[0], before)] + CleanActions(CleanOne(s, ids[0]), ids[1..], skip, before)
  }

  function ActionsOf(s: State, c: Call, maxDefault: int): seq<Action>
    requires c.ClaimCall? ==> |c.ws| == |c.cmds|
  {
    match c
    case EnqueueCall(id, cmd, payload, priority, webhook, maxAttempts, visibleAt, tenant) =>
      [Created(id, cmd, payload, priority, webhook, maxAttempts, visibleAt, tenant)]
    case ClaimCall(worker, cmds, lease, limit, tenant, ws, flagged) =>
      SweepAllActions(s, cmds, tenant, maxDefault, ws)
      + TakeActions(SweepAll(s, cmds, tenant, maxDefault, ws).q, cmds, tenant, limit, worker, lease)
    case HeartbeatCall(id, worker, extend) =>
      if OwnerCheck(s, id, worker).None? then [Beat(id, worker, extend)] else []
    case AbandonCall(id, worker) =>
      if OwnerCheck(s, id, worker).None? then [Abandoned(id, worker)] else []
    case NackCall(id, worker, delay, reason) =>
      if NackCheck(s, id, worker).None? then [Nacked(id, worker, delay, maxDefault, reason)] else []
    case SubmitCall(id, req) =>
      if SubmitCheck(s.tasks, id, req).None? then [Submitted(id, req)] else []
    case CleanupCall(_, before, ids, skip) => CleanActions(s, ids, skip, before)
    case TickCall(d) => [Ticked(d)]
  }

  /** `acts` can be performed from `s` one after the other and lead to `r`. */
  ghost predicate Performs(s: State, acts: seq<Action>, r: State) {
    EnabledAll(s, acts) && ActAll(s, acts) == r
  }

  lemma PerformNone(s: State)
    ensures Performs(s, [], s)
  {
  }

  lemma PerformOne(s: State, a: Action)
    requires Enabled(s, a)
    ensures Performs(s, [a], Act(s, a))
  {
    assert [a][1..] == [];
    assert EnabledAll(Act(s, a), []);
  }

  lemma PerformCons(s: State, a: Action, acts: seq<Action>, r: State)
    requires Enabled(s, a) && Performs(Act(s, a), acts, r)
    ensures Performs(s, [a] + acts, r)
  {
    assert ([a] + acts)[1..] == acts;
  }

  lemma PerformAppend(s: State, a: seq<Action>, m: State, b: seq<Action>, r: State)
    requires Performs(s, a, m) && Performs(m, b, r)
    ensures Performs(s, a + b, r)
  {
    ActAllAppend(s, a, b);
  }

  // ---------- sweeps ----------

  /** All of `ids` are delayed in `b` and due. */
  ghost predicate AllDue(s: State, b: Base, ids: seq<Id>) {
    forall i :: 0 <= i < |ids| ==> ids[i] in Delayed(s.q, b) && Delayed(s.q, b)[ids[i]] <= s.now
  }

  lemma DueEnabled(s: State, cmd: Command, from: Tenant, legacy: bool, ids: seq<Id>)
    requires Inv(s) && NoColon(cmd) && (legacy ==> from == "")
    requires ids != [] && AllDue(s, QueueBase(cmd, from), ids)
    ensures Enabled(s, CameDue(cmd, from, legacy, ids[0])) && Inv(Act(s, CameDue(cmd, from, legacy, ids[0])))
  {
    assert Enabled(s, CameDue(cmd, from, legacy, ids[0]));
    ActEffect(s, CameDue(cmd, from, legacy, ids[0]));
  }

  lemma {:induction false} MoveDuePerforms(s: State, cmd: Command, from: Tenant, legacy: bool, ids: seq<Id>)
    requires Inv(s) && NoColon(cmd) && (legacy ==> from == "")
    requires NoRepeats(ids) && AllDue(s, QueueBase(cmd, from), ids)
    ensures Performs(s, DueActions(cmd, from, legacy, ids), MoveDue(s, cmd, from, legacy, ids))
    decreases |ids|
  {
    if ids != [] {
      var a := CameDue(cmd, from, legacy, ids[0]);
      DueEnabled(s, cmd, from, legacy, ids);
      MoveDuePerforms(Act(s, a), cmd, from, legacy, ids[1..]);
      PerformCons(s, a, DueActions(cmd, from, legacy, ids[1..]), MoveDue(s, cmd, from, legacy, ids));
    }
  }

  /** All of `ids` are in progress in `b` with no live lease. */
  ghost predicate AllExpired(s: State, b: Base, ids: seq<Id>) {
    forall i :: 0 <= i < |ids| ==> In(s.q, ids[i], InprogAt(b)) && !LeaseLive(s, ids[i])
  }

  lemma RepairIsNack(s: State, b: Base, id: Id, delays: map<Id, int>, maxDefault: int)
    requires Inv(s) && AllExpired(s, b, [id])
    ensures id in s.tasks
    ensures var a := Nacked(id, NO_WORKER, DelayOf(delays, id), maxDefault, "LEASE_EXPIRED");
            Enabled(s, a) && Act(s, a) == RepairOne(s, b, id, delays, maxDefault)
  {
    assert [id][0] == id;
    assert In(s.q, id, InprogAt(b));
    assert TaskOk(id, s.tasks[id]);
  }

  lemma RestExpired(s: State, b: Base, ids: seq<Id>, delays: map<Id, int>, maxDefault: int)
    requires Inv(s) && ids != [] && NoRepeats(ids) && AllExpired(s, b, ids)
    ensures ids[0] in s.tasks
    ensures var r := RepairOne(s, b, ids[0], delays, maxDefault); Inv(r) && AllExpired(r, b, ids[1..])
  {
    hide Act, RepairOne, Enabled, Inv, TaskOk;
    var a := Nacked(ids[0], NO_WORKER, DelayOf(delays, ids[0]), maxDefault, "LEASE_EXPIRED");
    RepairIsNack(s, b, ids[0], delays, maxDefault);
    ActEffect(s, a);
    assert forall i :: 0 <= i < |ids[1..]| ==> ids[1..][i] == ids[i + 1];
  }

  lemma {:induction false} RepairPerforms(s: State, b: Base, ids: seq<Id>, delays: map<Id, int>, maxDefault: int)
    requires Inv(s) && NoRepeats(ids) && AllExpired(s, b, ids)
    ensures Performs(s, RepairActions(ids, delays, maxDefault), RepairAll(s, b, ids, delays, maxDefault))
    decreases |ids|
  {
    hide Performs, Act, Inv, RepairOne, Enabled;
    if ids == [] {
      PerformNone(s);
    } else {
      var a := Nacked(ids[0], NO_WORKER, DelayOf(delays, ids[0]), maxDefault, "LEASE_EXPIRED");
      RepairIsNack(s, b, ids[0], delays, maxDefault);
      RestExpired(s, b, ids, delays, maxDefault);
      RepairPerforms(Act(s, a), b, ids[1..], delays, maxDefault);
      PerformCons(s, a, RepairActions(ids[1..], delays, maxDefault), RepairAll(s, b, ids, delays, maxDefault));
    }
  }

  lemma {:induction false} ExpiredMembers(s: State, picked: seq<Id>)
    ensures forall x :: x in ExpiredOf(s, picked) <==> x in picked && !LeaseLive(s, x)
  {
    if picked != [] {
      ExpiredMembers(s, picked[1..]);
      assert forall x :: x in picked <==> x == picked[0] || x in picked[1..];
    }
  }

  lemma {:induction false} ExpiredNoRepeats(s: State, picked: seq<Id>)
    requires NoRepeats(picked)
    ensures NoRepeats(ExpiredOf(s, picked))
  {
    if picked != [] {
      ExpiredMembers(s, picked[1..]);
      ExpiredNoRepeats(s, picked[1..]);
      assert forall x :: x in picked[1..] ==> x != picked[0];
      if LeaseLive(s, picked[0]) {
        assert ExpiredOf(s, picked) == ExpiredOf(s, picked[1..]);
      } else {
        ConsNoRepeats(picked[0], ExpiredOf(s, picked[1..]));
      }
    }
  }

  lemma {:induction false} MoveDueClock(s: State, cmd: Command, from: Tenant, legacy: bool, ids: seq<Id>)
    ensures MoveDue(s, cmd, from, legacy, ids).now == s.now
    decreases |ids|
  {
    if ids != [] {
      MoveDueClock(MoveOne(s, cmd, from, legacy, ids[0]), cmd, from, legacy, ids[1..]);
    }
  }

  lemma SweepDelayedPerforms(s: State, cmd: Command, tenant: Tenant, limit: int, w: Sweep)
    requires Inv(s) && NoColon(cmd) && SweepAnswers(s, cmd, tenant, limit, w)
    ensures Performs(s, DueActions(cmd, "", true, w.legacyDue)
                        + (if tenant == "" then [] else DueActions(cmd, tenant, false, w.tenantDue)),
                     SweepDelayed(s, cmd, tenant, w))
    ensures Inv(SweepDelayed(s, cmd, tenant, w))
  {
    var s1 := MoveDue(s, cmd, "", true, w.legacyDue);
    var a1 := DueActions(cmd, "", true, w.legacyDue);
    MoveDuePerforms(s, cmd, "", true, w.legacyDue);
    ActAllInv(s, a1);
    MoveDueClock(s, cmd, "", true, w.legacyDue);
    if tenant == "" {
      assert a1 + [] == a1;
    } else {
      MoveDuePerforms(s1, cmd, tenant, false, w.tenantDue);
      ActAllInv(s1, DueActions(cmd, tenant, false, w.tenantDue));
      PerformAppend(s, a1, s1, DueActions(cmd, tenant, false, w.tenantDue), SweepDelayed(s, cmd, tenant, w));
    }
  }

  lemma RepairSamplePerforms(s: State, b: Base, limit: int, picked: seq<Id>, delays: map<Id, int>, maxDefault: int)
    requires Inv(s) && Sample(Inprog(s.q, b), limit, picked)
    ensures Performs(s, RepairActions(ExpiredOf(s, picked), delays, maxDefault),
                     RepairAll(s, b, ExpiredOf(s, picked), delays, maxDefault))
  {
    ExpiredNoRepeats(s, picked);
    ExpiredMembers(s, picked);
    var ids := ExpiredOf(s, picked);
    forall i | 0 <= i < |ids| ensures In(s.q, ids[i], InprogAt(b)) && !LeaseLive(s, ids[i]) {
      assert ids[i] in ids;
    }
    RepairPerforms(s, b, ids, delays, maxDefault);
  }

  lemma SweepPerforms(s: State, cmd: Command, tenant: Tenant, limit: int, maxDefault: int, w: Sweep)
    requires Inv(s) && NoColon(cmd) && SweepAnswers(s, cmd, tenant, limit, w)
    ensures Performs(s, SweepActions(s, cmd, tenant, maxDefault, w), SweepOne(s, cmd, tenant, maxDefault, w))
  {
    var a := DueActions(cmd, "", true, w.legacyDue)
             + (if tenant == "" then [] else DueActions(cmd, tenant, false, w.tenantDue));
    SweepDelayedPerforms(s, cmd, tenant, limit, w);
    var s2 := SweepDelayed(s, cmd, tenant, w);
    if w.repair {
      RepairSamplePerforms(s2, QueueBase(cmd, tenant), SweepLimit(limit), w.picked, w.delays, maxDefault);
      PerformAppend(s, a, s2, RepairActions(ExpiredOf(s2, w.picked), w.delays, maxDefault),
                    SweepOne(s, cmd, tenant, maxDefault, w));
    } else {
      assert a + [] == a;
    }
  }

  /** The sweeps of a claim run command by command: sweeping a list of commands is sweeping its first part
      and then, from there, the rest. */
  lemma {:induction false} SweepsCompose(s: State, a: seq<Command>, b: seq<Command>, tenant: Tenant, maxDefault: int,
                                         v: seq<Sweep>, w: seq<Sweep>)
    requires |v| == |a| && |w| == |b|
    ensures SweepAll(s, a + b, tenant, maxDefault, v + w)
            == SweepAll(SweepAll(s, a, tenant, maxDefault, v), b, tenant, maxDefault, w)
    decreases |a|
  {
    if a == [] {
      assert a + b == b && v + w == w;
    } else {
      assert (a + b)[1..] == a[1..] + b && (v + w)[1..] == v[1..] + w;
      SweepsCompose(SweepOne(s, a[0], tenant, maxDefault, v[0]), a[1..], b, tenant, maxDefault, v[1..], w);
    }
  }

  lemma {:induction false} SweepAllPerforms(s: State, cmds: seq<Command>, tenant: Tenant,
                                            limit: int, maxDefault: int, ws: seq<Sweep>)
    requires Inv(s) && |ws| == |cmds| && (forall i :: 0 <= i < |cmds| ==> NoColon(cmds[i]))
    requires SweepAllAnswers(s, cmds, tenant, limit, maxDefault, ws)
    ensures Performs(s, SweepAllActions(s, cmds, tenant, maxDefault, ws), SweepAll(s, cmds, tenant, maxDefault, ws))
    decreases |cmds|
  {
    if cmds != [] {
      var s1 := SweepOne(s, cmds[0], tenant, maxDefault, ws[0]);
      var acts := SweepActions(s, cmds[0], tenant, maxDefault, ws[0]);
      SweepPerforms(s, cmds[0], tenant, limit, maxDefault, ws[0]);
      ActAllInv(s, acts);
      SweepAllPerforms(s1, cmds[1..], tenant, limit, maxDefault, ws[1..]);
      PerformAppend(s, acts, s1, SweepAllActions(s1, cmds[1..], tenant, maxDefault, ws[1..]),
                    SweepAll(s, cmds, tenant, maxDefault, ws));
    }
  }

  // ---------- claim, cleanup, and all calls ----------

  /** A claim attempt on one command takes the oldest id of its highest non-empty priority. */
  lemma TryPopTakesTop(s: State, b: Base, tries: int, flagged: set<Id>, worker: Worker, lease: int)
    requires Inv(s) && flagged !! s.tasks.Keys && worker != NO_WORKER && lease > 0
    ensures var p := Top(s.q, b, MAX_PRIORITY);
            if tries > 0 && p >= MIN_PRIORITY then
              && Head(s.q, b, p) in s.tasks
              && TryPop(s, b, tries, flagged, worker, lease) ==
                   (Act(s, Taken(b, worker, lease)), Some(ClaimedTask(s, s.tasks[Head(s.q, b, p)], worker, lease)))
            else
              TryPop(s, b, tries, flagged, worker, lease) == (s, None)
  {
    hide Inv, PopScript;
    var p := Top(s.q, b, MAX_PRIORITY);
    PendingNotInprog(s, b);
    PopScriptTakesTop(s.q, b, MAX_PRIORITY);
    if p >= MIN_PRIORITY {
      HeadIsStored(s, b, p);
    }
  }

  lemma PendingNotInprog(s: State, b: Base)
    requires Inv(s)
    ensures forall x, p :: In(s.q, x, PendingAt(b, p)) ==> !In(s.q, x, InprogAt(b))
  {
  }

  /** What is pending in a queue belongs to it. */
  lemma HeadIsAtHome(s: State, b: Base, p: int)
    requires Inv(s) && Pend(s.q, b, p) != []
    ensures Head(s.q, b, p) in s.tasks
    ensures var t := s.tasks[Head(s.q, b, p)]; HomeBase(t) == b && NoColon(t.cmd)
  {
    HeadIsPending(s.q, b, p);
    assert TaskOk(Head(s.q, b, p), s.tasks[Head(s.q, b, p)]);
  }

  lemma HeadIsStored(s: State, b: Base, p: int)
    requires Inv(s) && Pend(s.q, b, p) != []
    ensures Head(s.q, b, p) in s.tasks
  {
    HeadIsPending(s.q, b, p);
  }

  lemma {:induction false} PopFirstPerforms(s: State, cmds: seq<Command>, tenant: Tenant, limit: int, flagged: set<Id>,
                                            worker: Worker, lease: int)
    requires Inv(s) && flagged !! s.tasks.Keys && worker != NO_WORKER && lease > 0
    ensures Performs(s, TakeActions(s.q, cmds, tenant, limit, worker, lease),
                     PopFirst(s, cmds, tenant, limit, flagged, worker, lease).0)
    decreases |cmds|
  {
    if cmds != [] {
      var b := QueueBase(cmds[0], tenant);
      TryPopTakesTop(s, b, limit, flagged, worker, lease);
      if limit > 0 && Top(s.q, b, MAX_PRIORITY) >= MIN_PRIORITY {
        PerformOne(s, Taken(b, worker, lease));
      } else {
        PopFirstPerforms(s, cmds[1..], tenant, limit, flagged, worker, lease);
      }
    }
  }

  /** The task a claim returns is the subject of its take; without a take it returns nothing. */
  lemma {:induction false} PopFirstResult(s: State, cmds: seq<Command>, tenant: Tenant, limit: int, flagged: set<Id>,
                                          worker: Worker, lease: int)
    requires Inv(s) && flagged !! s.tasks.Keys && worker != NO_WORKER && lease > 0
    ensures var acts := TakeActions(s.q, cmds, tenant, limit, worker, lease);
            var r := PopFirst(s, cmds, tenant, limit, flagged, worker, lease).1;
            if acts == [] then r == None
            else
              && acts == [acts[0]] && acts[0].Taken? && acts[0].worker == worker && acts[0].lease == lease
              && Enabled(s, acts[0]) && Subject(s, acts[0]) in s.tasks
              && r == Some(ClaimedTask(s, s.tasks[Subject(s, acts[0])], worker, lease))
    decreases |cmds|
  {
    if cmds != [] {
      TryPopTakesTop(s, QueueBase(cmds[0], tenant), limit, flagged, worker, lease);
      if !(limit > 0 && Top(s.q, QueueBase(cmds[0], tenant), MAX_PRIORITY) >= MIN_PRIORITY) {
        PopFirstResult(s, cmds[1..], tenant, limit, flagged, worker, lease);
      }
    }
  }

  /** All of `ids` have an entry at most `before` in the retention index. */
  ghost predicate AllAged(s: State, ids: seq<Id>, before: int) {
    forall i :: 0 <= i < |ids| ==> ids[i] in s.ttl && s.ttl[ids[i]] <= before
  }

  lemma {:induction false} CleanupPerforms(s: State, ids: seq<Id>, skip: set<Id>, before: int)
    requires Inv(s) && NoRepeats(ids) && AllAged(s, ids, before)
    ensures Performs(s, CleanActions(s, ids, skip, before), CleanupExpired(s, ids, skip))
    decreases |ids|
  {
    if ids != [] {
      assert AllAged(s, ids[1..], before);
      assert ids[0] in s.ttl && s.ttl[ids[0]] <= before;
      if ids[0] in skip {
        CleanupPerforms(s, ids[1..], skip, before);
      } else {
        var a := Removed(ids[0], before);
        ActEffect(s, a);
        CleanupPerforms(Act(s, a), ids[1..], skip, before);
        PerformCons(s, a, CleanActions(Act(s, a), ids[1..], skip, before), CleanupExpired(s, ids, skip));
      }
    }
  }

  predicate IsSweepAction(a: Action, maxDefault: int) {
    a.CameDue? || (a.Nacked? && a.worker == NO_WORKER && a.maxDefault == maxDefault)
  }

  lemma {:induction false} SweepActionsKeepIds(s: State, acts: seq<Action>, maxDefault: int)
    requires Inv(s) && EnabledAll(s, acts)
    requires forall i :: 0 <= i < |acts| ==> IsSweepAction(acts[i], maxDefault)
    ensures ActAll(s, acts).tasks.Keys == s.tasks.Keys && ActAll(s, acts).now == s.now
    decreases |acts|
  {
    hide Act, Enabled;
    if acts != [] {
      assert IsSweepAction(acts[0], maxDefault);
      ActEffect(s, acts[0]);
      assert Act(s, acts[0]).tasks.Keys == s.tasks.Keys;
      SweepActionsKeepIds(Act(s, acts[0]), acts[1..], maxDefault);
    }
  }

  lemma {:induction false} DueActionsAreSweeps(cmd: Command, from: Tenant, legacy: bool, ids: seq<Id>, maxDefault: int)
    ensures forall i :: 0 <= i < |DueActions(cmd, from, legacy, ids)| ==>
              IsSweepAction(DueActions(cmd, from, legacy, ids)[i], maxDefault)
    decreases |ids|
  {
    if ids != [] {
      DueActionsAreSweeps(cmd, from, legacy, ids[1..], maxDefault);
    }
  }

  lemma {:induction false} RepairActionsAreSweeps(ids: seq<Id>, delays: map<Id, int>, maxDefault: int)
    ensures forall i :: 0 <= i < |RepairActions(ids, delays, maxDefault)| ==>
              IsSweepAction(RepairActions(ids, delays, maxDefault)[i], maxDefault)
    decreases |ids|
  {
    if ids != [] {
      RepairActionsAreSweeps(ids[1..], delays, maxDefault);
    }
  }

  lemma {:induction false} SweepAllAreSweeps(s: State, cmds: seq<Command>, tenant: Tenant,
                                             maxDefault: int, ws: seq<Sweep>)
    requires |ws| == |cmds|
    ensures forall i :: 0 <= i < |SweepAllActions(s, cmds, tenant, maxDefault, ws)| ==>
              IsSweepAction(SweepAllActions(s, cmds, tenant, maxDefault, ws)[i], maxDefault)
    decreases |cmds|
  {
    if cmds != [] {
      var w := ws[0];
      DueActionsAreSweeps(cmds[0], "", true, w.legacyDue, maxDefault);
      DueActionsAreSweeps(cmds[0], tenant, false, w.tenantDue, maxDefault);
      RepairActionsAreSweeps(ExpiredOf(SweepDelayed(s, cmds[0], tenant, w), w.picked), w.delays, maxDefault);
      SweepAllAreSweeps(SweepOne(s, cmds[0], tenant, maxDefault, w), cmds[1..], tenant, maxDefault, ws[1..]);
    }
  }

  lemma SweepAllInv(s: State, cmds: seq<Command>, tenant: Tenant, limit: int, maxDefault: int, ws: seq<Sweep>)
    requires Inv(s) && |ws| == |cmds| && (forall i :: 0 <= i < |cmds| ==> NoColon(cmds[i]))
    requires SweepAllAnswers(s, cmds, tenant, limit, maxDefault, ws)
    ensures Performs(s, SweepAllActions(s, cmds, tenant, maxDefault, ws), SweepAll(s, cmds, tenant, maxDefault, ws))
    ensures Inv(SweepAll(s, cmds, tenant, maxDefault, ws))
    ensures SweepAll(s, cmds, tenant, maxDefault, ws).tasks.Keys == s.tasks.Keys
    ensures SweepAll(s, cmds, tenant, maxDefault, ws).now == s.now
  {
    var acts := SweepAllActions(s, cmds, tenant, maxDefault, ws);
    SweepAllPerforms(s, cmds, tenant, limit, maxDefault, ws);
    ActAllInv(s, acts);
    SweepAllAreSweeps(s, cmds, tenant, maxDefault, ws);
    SweepActionsKeepIds(s, acts, maxDefault);
  }

  lemma ClaimPerforms(s: State, c: Call, maxDefault: int)
    requires Inv(s) && c.ClaimCall? && Permitted(s, c, maxDefault)
    ensures Performs(s, ActionsOf(s, c, maxDefault), Step(s, c, maxDefault))
  {
    SweepAllInv(s, c.cmds, c.tenant, c.limit, maxDefault, c.ws);
    var s1 := SweepAll(s, c.cmds, c.tenant, maxDefault, c.ws);
    PopFirstPerforms(s1, c.cmds, c.tenant, c.limit, c.flagged, c.worker, c.lease);
    PerformAppend(s, SweepAllActions(s, c.cmds, c.tenant, maxDefault, c.ws), s1,
                  TakeActions(s1.q, c.cmds, c.tenant, c.limit, c.worker, c.lease), Step(s, c, maxDefault));
  }

  /** Every call is its actions, performed one after the other. */
  lemma StepPerforms(s: State, c: Call, maxDefault: int)
    requires Inv(s) && Permitted(s, c, maxDefault)
    ensures Performs(s, ActionsOf(s, c, maxDefault), Step(s, c, maxDefault))
  {
    hide Performs, Inv;
    if c.ClaimCall? {
      ClaimPerforms(s, c, maxDefault);
    } else if c.CleanupCall? {
      CleanupPerforms(s, c.ids, c.skip, c.before);
    } else {
      var acts := ActionsOf(s, c, maxDefault);
      if acts == [] {
        PerformNone(s);
      } else {
        PerformOne(s, acts[0]);
        assert acts == [acts[0]];
      }
    }
  }

  // ---------- runs ----------

  ghost predicate PermittedAll(s: State, calls: seq<Call>, maxDefault: int)
    decreases |calls|
  {
    calls == [] || (Permitted(s, calls[0], maxDefault)
                    && PermittedAll(Step(s, calls[0], maxDefault), calls[1..], maxDefault))
  }

  ghost function Run(s: State, calls: seq<Call>, maxDefault: int): State
    requires PermittedAll(s, calls, maxDefault)
    decreases |calls|
  {
    if calls == [] then s else Run(Step(s, calls[0], maxDefault), calls[1..], maxDefault)
  }

  ghost function RunActions(s: State, calls: seq<Call>, maxDefault: int): seq<Action>
    requires PermittedAll(s, calls, maxDefault)
    decreases |calls|
  {
    if calls == [] then []
    else ActionsOf(s, calls[0], maxDefault) + RunActions(Step(s, calls[0], maxDefault), calls[1..], maxDefault)
  }

  lemma {:induction false} RunPerforms(s: State, calls: seq<Call>, maxDefault: int)
    requires Inv(s) && PermittedAll(s, calls, maxDefault)
    ensures Performs(s, RunActions(s, calls, maxDefault), Run(s, calls, maxDefault))
    decreases |calls|
  {
    if calls != [] {
      var s1 := Step(s, calls[0], maxDefault);
      var acts := ActionsOf(s, calls[0], maxDefault);
      StepPerforms(s, calls[0], maxDefault);
      ActAllInv(s, acts);
      RunPerforms(s1, calls[1..], maxDefault);
      PerformAppend(s, acts, s1, RunActions(s1, calls[1..], maxDefault), Run(s, calls, maxDefault));
    }
  }
}
