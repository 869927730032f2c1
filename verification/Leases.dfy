/** A live lease shields its task, and the leases of different claims never overlap. */
module Leases {
  import opened TaskTypes
  import opened Wrappers
  import opened RedisState
  import opened Lifecycle
  import opened Partition
  import opened Actions
  import opened Calls
  import opened Runs

  // ---------- exclusive leases ----------

  /** Worker `w` holds task `id` under a lease key that lives until `until`. */
  predicate Holds(s: State, id: Id, w: Worker, until: int) {
    && id in s.leases && s.leases[id] == Lease(w, until)
    && id in s.tasks && s.tasks[id].status == InProgress && s.tasks[id].worker == w
  }

  /** The actions that may end or renew the lease of `w` on `id` before it expires: the holder's own,
      a submission that names no worker, and cleanup. */
  predicate MayRelease(a: Action, id: Id, w: Worker) {
    match a
    case Nacked(x, wk, _, _, _) => x == id && wk == w
    case Abandoned(x, wk) => x == id && wk == w
    case Beat(x, wk, _) => x == id && wk == w
    case Submitted(x, req) => x == id && (req.worker == w || req.worker == NO_WORKER)
    case Removed(x, _) => x == id
    case _ => false
  }

  /** A claimed id has no lease key at all. */
  lemma TakenUnleased(s: State, a: Action)
    requires Inv(s) && Enabled(s, a) && a.Taken?
    ensures Subject(s, a) !in s.leases
  {
    var id := Subject(s, a);
    assert In(s.q, id, PendingAt(a.base, Top(s.q, a.base, MAX_PRIORITY)));
    assert TaskOk(id, s.tasks[id]);
  }

  lemma TakenHolds(s: State, a: Action)
    requires Inv(s) && Enabled(s, a) && a.Taken?
    ensures Holds(Act(s, a), Subject(s, a), a.worker, s.now + a.lease)
  {
    ActEffect(s, a);
    var id := Subject(s, a);
    assert id in s.tasks && TaskOk(id, s.tasks[id]);
  }

  /** While a lease lives, an action that may not release it leaves the record and the lease alone. */
  lemma LeaseShields(s: State, a: Action, id: Id, w: Worker, until: int)
    requires Inv(s) && Enabled(s, a) && Holds(s, id, w, until) && s.now < until && !MayRelease(a, id, w)
    ensures Holds(Act(s, a), id, w, until) && Act(s, a).tasks[id] == s.tasks[id]
    ensures a.Ticked? || Subject(s, a) != id
  {
    TaskIsOk(s, id);
    if !a.Ticked? {
      OthersOnly(s, a, id, w, until);
      ActEffect(s, a);
      LeaseKept(s, a, id);
    }
  }

  lemma OthersOnly(s: State, a: Action, id: Id, w: Worker, until: int)
    requires Inv(s) && Enabled(s, a) && Holds(s, id, w, until) && s.now < until && !MayRelease(a, id, w) && !a.Ticked?
    requires w != NO_WORKER
    ensures Subject(s, a) != id
  {
    if a.CameDue? {
      assert In(s.q, a.id, DelayedAt(QueueBase(a.cmd, a.from)));
      assert TaskOk(a.id, s.tasks[a.id]);
    } else if a.Taken? {
      TakenUnleased(s, a);
    }
  }

  /** Actions change no other task's lease. */
  lemma LeaseKept(s: State, a: Action, id: Id)
    requires Inv(s) && Enabled(s, a) && id in s.leases && (a.Ticked? || Subject(s, a) != id)
    ensures id in Act(s, a).leases && Act(s, a).leases[id] == s.leases[id]
  {
    if a.Taken? {
      TakeKeepsLease(s, a, id);
    } else if a.Beat? || a.Abandoned? || a.Nacked? {
      ReleaseKeepsLease(s, a, id);
    } else if a.CameDue? {
      MoveKeepsLeases(s, a.cmd, a.from, a.legacy, a.id);
    }
  }

  lemma TakeKeepsLease(s: State, a: Action, id: Id)
    requires Enabled(s, a) && a.Taken? && id in s.leases && Subject(s, a) != id
    ensures id in Act(s, a).leases && Act(s, a).leases[id] == s.leases[id]
  {
  }

  lemma ReleaseKeepsLease(s: State, a: Action, id: Id)
    requires Enabled(s, a) && (a.Beat? || a.Abandoned? || a.Nacked?) && id in s.leases && Subject(s, a) != id
    ensures id in Act(s, a).leases && Act(s, a).leases[id] == s.leases[id]
  {
  }

  lemma MoveKeepsLeases(s: State, cmd: Command, from: Tenant, legacy: bool, id: Id)
    ensures MoveOne(s, cmd, from, legacy, id).leases == s.leases
  {
  }

  lemma {:induction false} LeaseShieldsActions(s: State, acts: seq<Action>, id: Id, w: Worker, until: int)
    requires Inv(s) && EnabledAll(s, acts) && Holds(s, id, w, until)
    requires forall i :: 0 <= i < |acts| ==> !MayRelease(acts[i], id, w)
    requires ActAll(s, acts).now < until
    ensures Holds(ActAll(s, acts), id, w, until) && ActAll(s, acts).tasks[id] == s.tasks[id]
    decreases |acts|
  {
    hide Act;
    if acts != [] {
      ClockGrows(s, acts);
      ActEffect(s, acts[0]);
      assert !MayRelease(acts[0], id, w);
      LeaseShields(s, acts[0], id, w, until);
      LeaseShieldsActions(Act(s, acts[0]), acts[1..], id, w, until);
    }
  }

  lemma {:induction false} ClockGrows(s: State, acts: seq<Action>)
    requires Inv(s) && EnabledAll(s, acts)
    ensures ActAll(s, acts).now >= s.now
    decreases |acts|
  {
    if acts != [] {
      ActEffect(s, acts[0]);
      ClockGrows(Act(s, acts[0]), acts[1..]);
    }
  }

  // ---------- exclusive leases, call by call ----------

  predicate MayReleaseCall(c: Call, id: Id, w: Worker) {
    match c
    case NackCall(x, wk, _, _) => x == id && wk == w
    case AbandonCall(x, wk) => x == id && wk == w
    case HeartbeatCall(x, wk, _) => x == id && wk == w
    case SubmitCall(x, req) => x == id && (req.worker == w || req.worker == NO_WORKER)
    case CleanupCall(_, _, ids, _) => id in ids
    case _ => false
  }

  lemma CallReleases(s: State, c: Call, maxDefault: int, id: Id, w: Worker)
    requires c.ClaimCall? ==> |c.ws| == |c.cmds|
    requires w != NO_WORKER && !MayReleaseCall(c, id, w)
    ensures forall i :: 0 <= i < |ActionsOf(s, c, maxDefault)| ==> !MayRelease(ActionsOf(s, c, maxDefault)[i], id, w)
  {
    if c.ClaimCall? {
      SweepAllAreSweeps(s, c.cmds, c.tenant, maxDefault, c.ws);
      TakesOnly(SweepAll(s, c.cmds, c.tenant, maxDefault, c.ws).q, c.cmds, c.tenant, c.limit, c.worker, c.lease);
    } else if c.CleanupCall? {
      CleansOnly(s, c.ids, c.skip, c.before);
    }
  }

  lemma {:induction false} RunReleases(s: State, calls: seq<Call>, maxDefault: int, id: Id, w: Worker)
    requires PermittedAll(s, calls, maxDefault) && w != NO_WORKER
    requires forall i :: 0 <= i < |calls| ==> !MayReleaseCall(calls[i], id, w)
    ensures forall i :: 0 <= i < |RunActions(s, calls, maxDefault)| ==>
              !MayRelease(RunActions(s, calls, maxDefault)[i], id, w)
    decreases |calls|
  {
    if calls != [] {
      assert !MayReleaseCall(calls[0], id, w);
      CallReleases(s, calls[0], maxDefault, id, w);
      RunReleases(Step(s, calls[0], maxDefault), calls[1..], maxDefault, id, w);
    }
  }

  /** The task a claim call returns. */
  function ClaimResult(s: State, c: Call, maxDefault: int): Option<Task>
    requires c.ClaimCall? && |c.ws| == |c.cmds|
  {
    Claim(s, c.worker, c.cmds, c.lease, c.limit, maxDefault, c.tenant, c.ws, c.flagged).1
  }

  /** A claim returns a task only when no unexpired lease for it exists, and then holds it for
      `lease` seconds. */
  lemma ClaimGrantsLease(s: State, c: Call, maxDefault: int)
    requires Inv(s) && c.ClaimCall? && Permitted(s, c, maxDefault) && ClaimResult(s, c, maxDefault).Some?
    ensures var id := ClaimResult(s, c, maxDefault).value.id;
            && !LeaseLive(s, id)
            && Holds(Step(s, c, maxDefault), id, c.worker, s.now + c.lease)
            && Step(s, c, maxDefault).now == s.now
  {
    var id := ClaimResult(s, c, maxDefault).value.id;
    ClaimHolds(s, c, maxDefault);
    if LeaseLive(s, id) {
      ClaimShielded(s, c, maxDefault, id, s.leases[id].worker, s.leases[id].expiry);
    }
  }

  lemma ClaimHolds(s: State, c: Call, maxDefault: int)
    requires Inv(s) && c.ClaimCall? && Permitted(s, c, maxDefault) && ClaimResult(s, c, maxDefault).Some?
    ensures var id := ClaimResult(s, c, maxDefault).value.id;
            Holds(Step(s, c, maxDefault), id, c.worker, s.now + c.lease) && Step(s, c, maxDefault).now == s.now
  {
    hide Inv;
    SweepAllInv(s, c.cmds, c.tenant, c.limit, maxDefault, c.ws);
    var s1 := SweepAll(s, c.cmds, c.tenant, maxDefault, c.ws);
    PopFirstResult(s1, c.cmds, c.tenant, c.limit, c.flagged, c.worker, c.lease);
    PopFirstPerforms(s1, c.cmds, c.tenant, c.limit, c.flagged, c.worker, c.lease);
    var a := TakeActions(s1.q, c.cmds, c.tenant, c.limit, c.worker, c.lease)[0];
    PerformOne(s1, a);
    TakenHolds(s1, a);
    TaskIsOk(s1, Subject(s1, a));
  }

  /** A claim does not return a task that somebody holds under a live lease. */
  lemma ClaimShielded(s: State, c: Call, maxDefault: int, id: Id, w: Worker, until: int)
    requires Inv(s) && c.ClaimCall? && Permitted(s, c, maxDefault)
    requires Holds(s, id, w, until) && s.now < until
    ensures ClaimResult(s, c, maxDefault).Some? ==> ClaimResult(s, c, maxDefault).value.id != id
  {
    assert TaskOk(id, s.tasks[id]);
    SweepAllInv(s, c.cmds, c.tenant, c.limit, maxDefault, c.ws);
    SweepAllAreSweeps(s, c.cmds, c.tenant, maxDefault, c.ws);
    LeaseShieldsActions(s, SweepAllActions(s, c.cmds, c.tenant, maxDefault, c.ws), id, w, until);
    var s1 := SweepAll(s, c.cmds, c.tenant, maxDefault, c.ws);
    PopFirstResult(s1, c.cmds, c.tenant, c.limit, c.flagged, c.worker, c.lease);
    var acts := TakeActions(s1.q, c.cmds, c.tenant, c.limit, c.worker, c.lease);
    if acts != [] {
      TakenUnleased(s1, acts[0]);
      assert TaskOk(Subject(s1, acts[0]), s1.tasks[Subject(s1, acts[0])]);
    }
  }

  /** Until its lease expires, nobody but the holder (or an anonymous submission, or cleanup) changes
      a task: any run of other calls that stays within the lease leaves record and lease as they are. */
  lemma HolderKeepsTask(s: State, calls: seq<Call>, maxDefault: int, id: Id, w: Worker, until: int)
    requires Inv(s) && PermittedAll(s, calls, maxDefault) && Holds(s, id, w, until)
    requires forall i :: 0 <= i < |calls| ==> !MayReleaseCall(calls[i], id, w)
    requires Run(s, calls, maxDefault).now < until
    ensures var r := Run(s, calls, maxDefault);
            Holds(r, id, w, until) && r.tasks[id] == s.tasks[id]
  {
    assert TaskOk(id, s.tasks[id]);
    RunPerforms(s, calls, maxDefault);
    RunReleases(s, calls, maxDefault, id, w);
    LeaseShieldsActions(s, RunActions(s, calls, maxDefault), id, w, until);
  }

  /** Leases of different claims never overlap: when a task is claimed, and later claimed again with
      no call of the first holder, no anonymous submission and no cleanup of it in between, the
      first lease has run out by the second claim. */
  lemma LeasesNeverOverlap(s: State, c1: Call, calls: seq<Call>, c2: Call, maxDefault: int)
    requires Inv(s) && c1.ClaimCall? && Permitted(s, c1, maxDefault) && ClaimResult(s, c1, maxDefault).Some?
    requires PermittedAll(Step(s, c1, maxDefault), calls, maxDefault)
    requires forall i :: 0 <= i < |calls| ==>
               !MayReleaseCall(calls[i], ClaimResult(s, c1, maxDefault).value.id, c1.worker)
    requires c2.ClaimCall? && Permitted(Run(Step(s, c1, maxDefault), calls, maxDefault), c2, maxDefault)
    requires var r := ClaimResult(Run(Step(s, c1, maxDefault), calls, maxDefault), c2, maxDefault);
             r.Some? && r.value.id == ClaimResult(s, c1, maxDefault).value.id
    ensures Run(Step(s, c1, maxDefault), calls, maxDefault).now >= s.now + c1.lease
  {
    var id, until := ClaimResult(s, c1, maxDefault).value.id, s.now + c1.lease;
    var s1 := Step(s, c1, maxDefault);
    var s2 := Run(s1, calls, maxDefault);
    ClaimGrantsLease(s, c1, maxDefault);
    CallInv(s, c1, maxDefault);
    RunPerforms(s1, calls, maxDefault);
    RunReleases(s1, calls, maxDefault, id, c1.worker);
    ActAllInv(s1, RunActions(s1, calls, maxDefault));
    if s2.now < until {
      LeaseShieldsActions(s1, RunActions(s1, calls, maxDefault), id, c1.worker, until);
      ClaimShielded(s2, c2, maxDefault, id, c1.worker, until);
    }
  }
}
