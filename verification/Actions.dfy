/** The single-task actions that every repository call is made of. */
module Actions {
  import opened TaskTypes
  import opened Wrappers
  import opened RedisState
  import opened Lifecycle
  import opened Partition

  datatype Action =
    | Created(id: Id, cmd: Command, payload: string, priority: int, webhook: string, maxAttempts: int,
              visibleAt: Option<int>, tenant: Tenant)
    | CameDue(cmd: Command, from: Tenant, legacy: bool, id: Id)
    | Nacked(id: Id, worker: Worker, delay: int, maxDefault: int, reason: string)
    | Taken(base: Base, worker: Worker, lease: int)
    | Beat(id: Id, worker: Worker, extend: int)
    | Abandoned(id: Id, worker: Worker)
    | Submitted(id: Id, req: SubmitRequest)
    | Removed(id: Id, before: int)
    | Ticked(seconds: nat)

  /** An action that the calls can perform in state `s`. A nack without a worker is the repair of
      an id whose lease key is gone; everybody else gives a worker id. */
  predicate Enabled(s: State, a: Action) {
    match a
    case Created(id, cmd, _, _, _, _, _, _) => id !in s.tasks && NoColon(cmd)
    case CameDue(cmd, from, legacy, id) =>
      && NoColon(cmd) && (legacy ==> from == "")
      && id in Delayed(s.q, QueueBase(cmd, from)) && Delayed(s.q, QueueBase(cmd, from))[id] <= s.now
    case Nacked(id, worker, _, _, _) => NackCheck(s, id, worker).None? && (worker == NO_WORKER ==> !LeaseLive(s, id))
    case Taken(b, worker, lease) => worker != NO_WORKER && lease > 0 && Top(s.q, b, MAX_PRIORITY) >= MIN_PRIORITY
    case Beat(id, worker, _) => worker != NO_WORKER && OwnerCheck(s, id, worker).None?
    case Abandoned(id, worker) => worker != NO_WORKER && OwnerCheck(s, id, worker).None?
    case Submitted(id, req) => SubmitCheck(s.tasks, id, req).None?
    case Removed(id, before) => id in s.tasks && id in s.ttl && s.ttl[id] <= before
    case Ticked(_) => true
  }

  /** The id an action is about; meaningless for a tick. */
  function Subject(s: State, a: Action): Id
    requires Enabled(s, a)
  {
    match a
    case Taken(b, _, _) => Head(s.q, b, Top(s.q, b, MAX_PRIORITY))
    case Ticked(_) => 0
    case Created(id, _, _, _, _, _, _, _) => id
    case CameDue(_, _, _, id) => id
    case Nacked(id, _, _, _, _) => id
    case Beat(id, _, _) => id
    case Abandoned(id, _) => id
    case Submitted(id, _) => id
    case Removed(id, _) => id
  }

  function Act(s: State, a: Action): State
    requires Enabled(s, a)
  {
    match a
    case Created(id, cmd, payload, priority, webhook, maxAttempts, visibleAt, tenant) =>
      Enqueue(s, id, cmd, payload, priority, webhook, maxAttempts, visibleAt, tenant)
    case CameDue(cmd, from, legacy, id) => MoveOne(s, cmd, from, legacy, id)
    case Nacked(id, worker, delay, maxDefault, reason) => NackApply(s, id, delay, maxDefault, reason)
    case Taken(b, worker, lease) =>
      var id := Subject(s, a);
      if id in s.tasks then Take(s.(q := PopTop(s.q, b, Top(s.q, b, MAX_PRIORITY))), id, worker, lease) else s
    case Beat(id, worker, extend) => Heartbeat(s, id, worker, extend).0
    case Abandoned(id, worker) => Abandon(s, id, worker).0
    case Submitted(id, req) => SubmitApply(s, id, req)
    case Removed(id, _) => CleanOne(s, id)
    case Ticked(d) => s.(now := s.now + d)
  }

  /** The record of the subject after an action that keeps it. */
  function NextTask(s: State, a: Action): Task
    requires Enabled(s, a) && !a.Removed? && !a.Ticked?
    requires a.Created? || Subject(s, a) in s.tasks
  {
    match a
    case Created(id, cmd, payload, priority, webhook, maxAttempts, visibleAt, tenant) =>
      NewTask(s, id, cmd, payload, priority, webhook, maxAttempts, visibleAt, tenant)
    case CameDue(_, _, _, id) => Requeued(s, s.tasks[id])
    case Nacked(id, _, _, maxDefault, reason) => NackedTask(s, s.tasks[id], maxDefault, reason)
    case Taken(_, worker, lease) => ClaimedTask(s, s.tasks[Subject(s, a)], worker, lease)
    case Beat(id, _, extend) => s.tasks[id].(leaseUntil := Some(s.now + extend), updatedAt := s.now, loc := InprogSet)
    case Abandoned(id, _) => Requeued(s, s.tasks[id])
    case Submitted(id, req) => SubmittedTask(s, s.tasks[id], req)
  }

  /** What an action does to the data, and that it keeps the invariant. */
  ghost predicate Effect(s: State, a: Action, r: State)
    requires Enabled(s, a)
  {
    if a.Ticked? then r == s.(now := s.now + a.seconds)
    else if a.Removed? then Dropped(s, r, a.id)
    else
      && (a.Created? || Subject(s, a) in s.tasks)
      && Moved(s, r, Subject(s, a), NextTask(s, a))
  }

  lemma ActEffect(s: State, a: Action)
    requires Inv(s) && Enabled(s, a)
    ensures Effect(s, a, Act(s, a)) && Inv(Act(s, a))
  {
    match a
    case Created(_, _, _, _, _, _, _, _) => ArriveEffect(s, a);
    case CameDue(_, _, _, _) => ArriveEffect(s, a);
    case Taken(_, _, _) => TakenEffect(s, a);
    case Nacked(_, _, _, _, _) => NackedEffect(s, a);
    case Beat(_, _, _) => BeatEffect(s, a);
    case Abandoned(_, _) => AbandonedEffect(s, a);
    case Submitted(_, _) => SubmittedEffect(s, a);
    case Removed(_, _) => CleanOneInv(s, a.id);
    case Ticked(_) => TickInv(s, a.seconds);
  }

  lemma ArriveEffect(s: State, a: Action)
    requires Inv(s) && Enabled(s, a) && (a.Created? || a.CameDue?)
    ensures Effect(s, a, Act(s, a)) && Inv(Act(s, a))
  {
    if a.Created? {
      EnqueueInv(s, a.id, a.cmd, a.payload, a.priority, a.webhook, a.maxAttempts, a.visibleAt, a.tenant);
    } else {
      MoveOneInv(s, a.cmd, a.from, a.legacy, a.id);
    }
  }

  lemma TakenEffect(s: State, a: Action)
    requires Inv(s) && Enabled(s, a) && a.Taken?
    ensures Effect(s, a, Act(s, a)) && Inv(Act(s, a))
  {
    TakeInv(s, a.base, Top(s.q, a.base, MAX_PRIORITY), a.worker, a.lease);
  }

  lemma NackedEffect(s: State, a: Action)
    requires Inv(s) && Enabled(s, a) && a.Nacked?
    ensures Effect(s, a, Act(s, a)) && Inv(Act(s, a))
  {
    NackApplyInv(s, a.id, a.delay, a.maxDefault, a.reason);
  }

  lemma BeatEffect(s: State, a: Action)
    requires Inv(s) && Enabled(s, a) && a.Beat?
    ensures Effect(s, a, Act(s, a)) && Inv(Act(s, a))
  {
    hide Inv;
    HeartbeatInv(s, a.id, a.worker, a.extend);
  }

  lemma AbandonedEffect(s: State, a: Action)
    requires Inv(s) && Enabled(s, a) && a.Abandoned?
    ensures Effect(s, a, Act(s, a)) && Inv(Act(s, a))
  {
    AbandonInv(s, a.id, a.worker);
  }

  lemma SubmittedEffect(s: State, a: Action)
    requires Inv(s) && Enabled(s, a) && a.Submitted?
    ensures Effect(s, a, Act(s, a)) && Inv(Act(s, a))
  {
    SubmitInv(s, a.id, a.req);
  }

  lemma TickInv(s: State, d: nat)
    requires Inv(s)
    ensures Inv(s.(now := s.now + d))
  {
    var r := s.(now := s.now + d);
    assert TasksOk(r) && Placed(r) && LeasesOk(r) && TtlOk(r);
  }

  // ---------- runs of actions ----------

  predicate EnabledAll(s: State, acts: seq<Action>)
    decreases |acts|
  {
    acts == [] || (Enabled(s, acts[0]) && EnabledAll(Act(s, acts[0]), acts[1..]))
  }

  function ActAll(s: State, acts: seq<Action>): State
    requires EnabledAll(s, acts)
    decreases |acts|
  {
    if acts == [] then s else ActAll(Act(s, acts[0]), acts[1..])
  }

  lemma {:induction false} ActAllInv(s: State, acts: seq<Action>)
    requires Inv(s) && EnabledAll(s, acts)
    ensures Inv(ActAll(s, acts))
    decreases |acts|
  {
    if acts != [] {
      ActEffect(s, acts[0]);
      ActAllInv(Act(s, acts[0]), acts[1..]);
    }
  }

  lemma {:induction false} EnabledAppend(s: State, a: seq<Action>, b: seq<Action>)
    requires EnabledAll(s, a) && EnabledAll(ActAll(s, a), b)
    ensures EnabledAll(s, a + b)
    decreases |a|
  {
    hide Act, Enabled;
    if a == [] {
      assert a + b == b;
    } else {
      EnabledAppend(Act(s, a[0]), a[1..], b);
      assert (a + b)[0] == a[0] && (a + b)[1..] == a[1..] + b;
    }
  }

  lemma ActAllAppend(s: State, a: seq<Action>, b: seq<Action>)
    requires EnabledAll(s, a) && EnabledAll(ActAll(s, a), b)
    ensures EnabledAll(s, a + b) && ActAll(s, a + b) == ActAll(ActAll(s, a), b)
  {
    EnabledAppend(s, a, b);
    ActAllSplit(s, a, b);
  }

  lemma {:induction false} ActAllSplit(s: State, a: seq<Action>, b: seq<Action>)
    requires EnabledAll(s, a + b)
    ensures EnabledAll(s, a) && EnabledAll(ActAll(s, a), b) && ActAll(s, a + b) == ActAll(ActAll(s, a), b)
    decreases |a|
  {
    if a == [] {
      assert a + b == b;
    } else {
      assert (a + b)[0] == a[0] && (a + b)[1..] == a[1..] + b;
      ActAllSplit(Act(s, a[0]), a[1..], b);
    }
  }
}
