/** Every retry costs two attempts, so a task is dead-lettered after half its limit of nacks. */
module Retries {
  import opened TaskTypes
  import opened RedisState
  import opened Lifecycle
  import opened Partition
  import opened Actions
  import opened Calls
  import opened Runs

  predicate IsNackOf(a: Action, id: Id) {
    a.Nacked? && a.id == id
  }

  /** How often `acts` nacks `id`, by its worker or by lease repair. */
  function Nacks(acts: seq<Action>, id: Id): nat
    decreases |acts|
  {
    if acts == [] then 0 else (if IsNackOf(acts[0], id) then 1 else 0) + Nacks(acts[1..], id)
  }

  /** The standing of a task that has been nacked `n` times. */
  predicate RetryOk(t: Task, n: nat, m: int) {
    && t.attempts >= 2 * n + (if t.status == InProgress then 1 else 0)
    && (if t.loc == DlqSet then n <= (m + 1) / 2 && t.attempts >= m else n == 0 || 2 * n < m)
  }

  /** What one action on a task does to its standing. */
  lemma RetryTask(s: State, a: Action, n: nat, maxDefault: int, m: int)
    requires Enabled(s, a) && !a.Ticked? && !a.Removed? && !a.Created? && Subject(s, a) in s.tasks
    requires !Terminal(s.tasks[Subject(s, a)]) && TaskOk(Subject(s, a), s.tasks[Subject(s, a)])
    requires a.Taken? || a.CameDue? ==> s.tasks[Subject(s, a)].status == Pending
    requires a.Nacked? ==> a.maxDefault == maxDefault
    requires m == EffectiveMax(s.tasks[Subject(s, a)].maxAttempts, maxDefault) && RetryOk(s.tasks[Subject(s, a)], n, m)
    ensures var t := NextTask(s, a);
            m == EffectiveMax(t.maxAttempts, maxDefault) && RetryOk(t, n + (if a.Nacked? then 1 else 0), m)
  {
  }

  lemma RetryStep(s: State, a: Action, id: Id, n: nat, maxDefault: int, m: int)
    requires Inv(s) && Enabled(s, a) && id in s.tasks && id in Act(s, a).tasks
    requires IsNackOf(a, id) ==> a.maxDefault == maxDefault
    requires m == EffectiveMax(s.tasks[id].maxAttempts, maxDefault) && RetryOk(s.tasks[id], n, m)
    ensures var t := Act(s, a).tasks[id];
            m == EffectiveMax(t.maxAttempts, maxDefault) && RetryOk(t, n + (if IsNackOf(a, id) then 1 else 0), m)
  {
    hide Act, Inv;
    SubjectRecord(s, a, id);
    if !a.Ticked? && !a.Removed? && !a.Created? && Subject(s, a) == id {
      SubjectActive(s, a);
      TaskIsOk(s, id);
      SubjectPending(s, a);
      RetryTask(s, a, n, maxDefault, m);
    }
  }

  /** An action rewrites the record of its subject and no other. */
  lemma SubjectRecord(s: State, a: Action, id: Id)
    requires Inv(s) && Enabled(s, a) && id in s.tasks && id in Act(s, a).tasks
    ensures if a.Ticked? || a.Removed? || a.Created? || Subject(s, a) != id then Act(s, a).tasks[id] == s.tasks[id]
            else Act(s, a).tasks[id] == NextTask(s, a)
  {
    hide Act;
    ActEffect(s, a);
  }

  lemma SubjectPending(s: State, a: Action)
    requires Inv(s) && Enabled(s, a) && (a.Taken? || a.CameDue? ==> Subject(s, a) in s.tasks)
    ensures a.Taken? || a.CameDue? ==> s.tasks[Subject(s, a)].status == Pending
  {
    if a.Taken? {
      assert In(s.q, Subject(s, a), PendingAt(a.base, Top(s.q, a.base, MAX_PRIORITY)));
      assert TaskOk(Subject(s, a), s.tasks[Subject(s, a)]);
    } else if a.CameDue? {
      assert In(s.q, a.id, DelayedAt(QueueBase(a.cmd, a.from)));
      assert TaskOk(a.id, s.tasks[a.id]);
    }
  }

  lemma {:induction false} RetryActions(s: State, acts: seq<Action>, id: Id, n: nat, maxDefault: int, m: int)
    requires Inv(s) && EnabledAll(s, acts) && id in s.tasks && id in ActAll(s, acts).tasks
    requires forall i :: 0 <= i < |acts| ==>
               !Recreates(acts[i], id) && (IsNackOf(acts[i], id) ==> acts[i].maxDefault == maxDefault)
    requires m == EffectiveMax(s.tasks[id].maxAttempts, maxDefault) && RetryOk(s.tasks[id], n, m)
    ensures RetryOk(ActAll(s, acts).tasks[id], n + Nacks(acts, id), m)
    decreases |acts|
  {
    hide Act, Inv, RetryOk, EffectiveMax;
    if acts != [] {
      var s1 := Act(s, acts[0]);
      ActEffect(s, acts[0]);
      assert !Recreates(acts[0], id) && (IsNackOf(acts[0], id) ==> acts[0].maxDefault == maxDefault);
      if id !in s1.tasks {
        StaysGone(s1, acts[1..], id);
      } else {
        RetryStep(s, acts[0], id, n, maxDefault, m);
        RetryActions(s1, acts[1..], id, n + (if IsNackOf(acts[0], id) then 1 else 0), maxDefault, m);
      }
    }
  }

  lemma {:induction false} StaysGone(s: State, acts: seq<Action>, id: Id)
    requires Inv(s) && EnabledAll(s, acts) && id !in s.tasks
    requires forall i :: 0 <= i < |acts| ==> !Recreates(acts[i], id)
    ensures id !in ActAll(s, acts).tasks
    decreases |acts|
  {
    if acts != [] {
      ActEffect(s, acts[0]);
      assert !Recreates(acts[0], id);
      StaysGone(Act(s, acts[0]), acts[1..], id);
    }
  }

  lemma CallDefault(s: State, c: Call, maxDefault: int)
    requires c.ClaimCall? ==> |c.ws| == |c.cmds|
    ensures forall i :: 0 <= i < |ActionsOf(s, c, maxDefault)| ==>
              ActionsOf(s, c, maxDefault)[i].Nacked? ==> ActionsOf(s, c, maxDefault)[i].maxDefault == maxDefault
  {
    if c.ClaimCall? {
      SweepAllAreSweeps(s, c.cmds, c.tenant, maxDefault, c.ws);
      TakesOnly(SweepAll(s, c.cmds, c.tenant, maxDefault, c.ws).q, c.cmds, c.tenant, c.limit, c.worker, c.lease);
    } else if c.CleanupCall? {
      CleansOnly(s, c.ids, c.skip, c.before);
    }
  }

  lemma {:induction false} RunDefault(s: State, calls: seq<Call>, maxDefault: int)
    requires PermittedAll(s, calls, maxDefault)
    ensures forall i :: 0 <= i < |RunActions(s, calls, maxDefault)| ==>
              RunActions(s, calls, maxDefault)[i].Nacked? ==>
                RunActions(s, calls, maxDefault)[i].maxDefault == maxDefault
    decreases |calls|
  {
    if calls != [] {
      CallDefault(s, calls[0], maxDefault);
      RunDefault(Step(s, calls[0], maxDefault), calls[1..], maxDefault);
    }
  }

  /** Bounded retries: in any run after its enqueue, a task nacked n times (by workers or by lease
      expiry, abandons in between included) has at least 2n attempts, n never exceeds half of its
      limit rounded up, and a task nacked that often is in the dead-letter set; a task is there only if
      its attempts reach the limit. The limit is the task's own if positive, else the default if positive,
      else one. */
  lemma BoundedRetries(s: State, c: Call, calls: seq<Call>, maxDefault: int)
    requires Inv(s) && c.EnqueueCall? && Permitted(s, c, maxDefault)
    requires PermittedAll(Step(s, c, maxDefault), calls, maxDefault)
    requires forall i :: 0 <= i < |calls| ==> !RecreatesCall(calls[i], c.id)
    requires c.id in Run(Step(s, c, maxDefault), calls, maxDefault).tasks
    ensures var s1 := Step(s, c, maxDefault);
            var t := Run(s1, calls, maxDefault).tasks[c.id];
            var n := Nacks(RunActions(s1, calls, maxDefault), c.id);
            var limit := if c.maxAttempts > 0 then c.maxAttempts else if maxDefault > 0 then maxDefault else 1;
            && t.attempts >= 2 * n
            && n <= (limit + 1) / 2
            && (n == (limit + 1) / 2 ==> t.status == Failed && t.loc == DlqSet)
            && (t.loc == DlqSet ==> t.attempts >= limit)
  {
    LimitIs(c.maxAttempts, maxDefault);
    hide Step, Inv, Permitted, PermittedAll, Run, RunActions, RetryOk, EffectiveMax, Plain, EnabledAll, ActAll, Nacks;
    var s1 := Step(s, c, maxDefault);
    EnqueuedOk(s, c, maxDefault);
    RunPerforms(s1, calls, maxDefault);
    RunIsPlain(s1, calls, maxDefault, c.id);
    BoundedByActions(s1, RunActions(s1, calls, maxDefault), c.id, maxDefault, EffectiveMax(c.maxAttempts, maxDefault));
  }

  lemma LimitIs(own: int, fallback: int)
    ensures EffectiveMax(own, fallback) == if own > 0 then own else if fallback > 0 then fallback else 1
  {
  }

  /** No action creates `id` anew, and its nacks use the configured limit. */
  ghost predicate Plain(acts: seq<Action>, id: Id, maxDefault: int) {
    forall i :: 0 <= i < |acts| ==>
      !Recreates(acts[i], id) && (IsNackOf(acts[i], id) ==> acts[i].maxDefault == maxDefault)
  }

  lemma RunIsPlain(s: State, calls: seq<Call>, maxDefault: int, id: Id)
    requires Inv(s) && PermittedAll(s, calls, maxDefault)
    requires forall i :: 0 <= i < |calls| ==> !RecreatesCall(calls[i], id)
    ensures Plain(RunActions(s, calls, maxDefault), id, maxDefault)
  {
    hide RunActions;
    RunRecreates(s, calls, maxDefault, id);
    RunDefault(s, calls, maxDefault);
  }

  lemma BoundedByActions(s: State, acts: seq<Action>, id: Id, maxDefault: int, m: int)
    requires Inv(s) && EnabledAll(s, acts) && Plain(acts, id, maxDefault) && m >= 1
    requires id in s.tasks && id in ActAll(s, acts).tasks
    requires m == EffectiveMax(s.tasks[id].maxAttempts, maxDefault) && RetryOk(s.tasks[id], 0, m)
    ensures var t, n := ActAll(s, acts).tasks[id], Nacks(acts, id);
            && t.attempts >= 2 * n && n <= (m + 1) / 2
            && (n == (m + 1) / 2 ==> t.status == Failed && t.loc == DlqSet) && (t.loc == DlqSet ==> t.attempts >= m)
  {
    hide Inv, RetryOk, EffectiveMax, EnabledAll, ActAll, Nacks;
    ActAllInv(s, acts);
    RetryActions(s, acts, id, 0, maxDefault, m);
    TaskIsOk(ActAll(s, acts), id);
    RetryMeans(id, ActAll(s, acts).tasks[id], Nacks(acts, id), m);
  }

  lemma EnqueuedOk(s: State, c: Call, maxDefault: int)
    requires Inv(s) && c.EnqueueCall? && Permitted(s, c, maxDefault)
    ensures var s1, m := Step(s, c, maxDefault), EffectiveMax(c.maxAttempts, maxDefault);
            Inv(s1) && c.id in s1.tasks && m == EffectiveMax(s1.tasks[c.id].maxAttempts, maxDefault)
            && RetryOk(s1.tasks[c.id], 0, m)
  {
    CallInv(s, c, maxDefault);
  }

  lemma RetryMeans(id: Id, t: Task, n: nat, m: int)
    requires RetryOk(t, n, m) && TaskOk(id, t) && m >= 1
    ensures t.attempts >= 2 * n && n <= (m + 1) / 2
    ensures (n == (m + 1) / 2 ==> t.status == Failed && t.loc == DlqSet) && (t.loc == DlqSet ==> t.attempts >= m)
  {
  }

  // ---------- attempts are counted exactly ----------

  /** How often `acts`, performed from `s`, hand out `id`. */
  function Takes(s: State, acts: seq<Action>, id: Id): nat
    requires EnabledAll(s, acts)
    decreases |acts|
  {
    if acts == [] then 0
    else (if acts[0].Taken? && Subject(s, acts[0]) == id then 1 else 0) + Takes(Act(s, acts[0]), acts[1..], id)
  }

  lemma NextAttempts(s: State, a: Action)
    requires Enabled(s, a) && !a.Ticked? && !a.Removed? && !a.Created? && Subject(s, a) in s.tasks
    ensures NextTask(s, a).attempts == s.tasks[Subject(s, a)].attempts + if a.Taken? || a.Nacked? then 1 else 0
  {
  }

  lemma AttemptStep(s: State, a: Action, id: Id)
    requires Inv(s) && Enabled(s, a) && id in s.tasks && id in Act(s, a).tasks
    ensures Act(s, a).tasks[id].attempts
            == s.tasks[id].attempts
               + (if a.Taken? && Subject(s, a) == id then 1 else 0) + if IsNackOf(a, id) then 1 else 0
  {
    SubjectRecord(s, a, id);
    if !a.Ticked? && !a.Removed? && !a.Created? && Subject(s, a) == id {
      NextAttempts(s, a);
    }
  }

  lemma {:induction false} AttemptActions(s: State, acts: seq<Action>, id: Id)
    requires Inv(s) && EnabledAll(s, acts) && id in s.tasks && id in ActAll(s, acts).tasks
    requires forall i :: 0 <= i < |acts| ==> !Recreates(acts[i], id)
    ensures ActAll(s, acts).tasks[id].attempts == s.tasks[id].attempts + Takes(s, acts, id) + Nacks(acts, id)
    decreases |acts|
  {
    hide Act, Inv;
    if acts != [] {
      var s1 := Act(s, acts[0]);
      ActEffect(s, acts[0]);
      assert !Recreates(acts[0], id);
      if id !in s1.tasks {
        StaysGone(s1, acts[1..], id);
      } else {
        AttemptStep(s, acts[0], id);
        AttemptActions(s1, acts[1..], id);
      }
    }
  }

  /** In any run after its enqueue, a task's attempts are exactly its claims and its nacks together. */
  lemma AttemptsExact(s: State, c: Call, calls: seq<Call>, maxDefault: int)
    requires Inv(s) && c.EnqueueCall? && Permitted(s, c, maxDefault)
    requires PermittedAll(Step(s, c, maxDefault), calls, maxDefault)
    requires forall i :: 0 <= i < |calls| ==> !RecreatesCall(calls[i], c.id)
    requires c.id in Run(Step(s, c, maxDefault), calls, maxDefault).tasks
    ensures var s1 := Step(s, c, maxDefault);
            var acts := RunActions(s1, calls, maxDefault);
            EnabledAll(s1, acts)
            && Run(s1, calls, maxDefault).tasks[c.id].attempts == Takes(s1, acts, c.id) + Nacks(acts, c.id)
  {
    var s1 := Step(s, c, maxDefault);
    CallInv(s, c, maxDefault);
    RunPerforms(s1, calls, maxDefault);
    RunRecreates(s1, calls, maxDefault, c.id);
    AttemptActions(s1, RunActions(s1, calls, maxDefault), c.id);
  }

  /** In any run after its enqueue, a task is in the dead-letter set only if its claims and its nacks
      together reach its limit. */
  lemma DeadOnlyWhenSpent(s: State, c: Call, calls: seq<Call>, maxDefault: int)
    requires Inv(s) && c.EnqueueCall? && Permitted(s, c, maxDefault)
    requires PermittedAll(Step(s, c, maxDefault), calls, maxDefault)
    requires forall i :: 0 <= i < |calls| ==> !RecreatesCall(calls[i], c.id)
    requires c.id in Run(Step(s, c, maxDefault), calls, maxDefault).tasks
    requires Run(Step(s, c, maxDefault), calls, maxDefault).tasks[c.id].loc == DlqSet
    ensures var s1 := Step(s, c, maxDefault);
            var acts := RunActions(s1, calls, maxDefault);
            EnabledAll(s1, acts)
            && Takes(s1, acts, c.id) + Nacks(acts, c.id)
               >= if c.maxAttempts > 0 then c.maxAttempts else if maxDefault > 0 then maxDefault else 1
  {
    hide Step, Inv, Permitted, PermittedAll, Run, RunActions, EnabledAll, Takes, Nacks;
    BoundedRetries(s, c, calls, maxDefault);
    AttemptsExact(s, c, calls, maxDefault);
  }
}
