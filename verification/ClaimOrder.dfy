/** Which task a claim returns: first command with work, highest priority, oldest first. */
module ClaimOrder {
  import opened TaskTypes
  import opened RedisState
  import opened Lifecycle
  import opened Partition
  import opened Actions
  import opened Calls
  import opened Leases

  /** No pending list of command `cmd` holds anything. */
  ghost predicate NoWork(q: Queues, cmd: Command, tenant: Tenant) {
    forall p :: MIN_PRIORITY <= p <= MAX_PRIORITY ==> Pend(q, QueueBase(cmd, tenant), p) == []
  }

  /** Command `i` is the first with work, `p` its highest non-empty priority, and `id` is at the pop
      end of that list. */
  ghost predicate NextAt(q: Queues, cmds: seq<Command>, tenant: Tenant, id: Id, i: int, p: int) {
    && 0 <= i < |cmds| && MIN_PRIORITY <= p <= MAX_PRIORITY
    && (forall j :: 0 <= j < i ==> NoWork(q, cmds[j], tenant))
    && (forall hi :: p < hi <= MAX_PRIORITY ==> Pend(q, QueueBase(cmds[i], tenant), hi) == [])
    && Pend(q, QueueBase(cmds[i], tenant), p) != []
    && Head(q, QueueBase(cmds[i], tenant), p) == id
  }

  /** `id` is what a claim has to return. */
  ghost predicate Next(q: Queues, cmds: seq<Command>, tenant: Tenant, id: Id) {
    exists i, p :: NextAt(q, cmds, tenant, id, i, p)
  }

  /** After its sweeps a claim that may inspect at least one id returns the next task, and returns
      nothing exactly when every listed pending list is empty. */
  lemma ClaimReturnsNext(s: State, c: Call, maxDefault: int)
    requires Inv(s) && c.ClaimCall? && Permitted(s, c, maxDefault) && c.limit > 0
    ensures var q := SweepAll(s, c.cmds, c.tenant, maxDefault, c.ws).q;
            var r := ClaimResult(s, c, maxDefault);
            && (r.None? <==> forall i :: 0 <= i < |c.cmds| ==> NoWork(q, c.cmds[i], c.tenant))
            && (r.Some? ==> Next(q, c.cmds, c.tenant, r.value.id))
  {
    SweepAllInv(s, c.cmds, c.tenant, c.limit, maxDefault, c.ws);
    var s1 := SweepAll(s, c.cmds, c.tenant, maxDefault, c.ws);
    PopFirstResult(s1, c.cmds, c.tenant, c.limit, c.flagged, c.worker, c.lease);
    TakeIsNext(s1, c.cmds, c.tenant, c.limit, c.worker, c.lease);
    var acts := TakeActions(s1.q, c.cmds, c.tenant, c.limit, c.worker, c.lease);
    if acts != [] {
      assert TaskOk(Subject(s1, acts[0]), s1.tasks[Subject(s1, acts[0])]);
    }
  }

  lemma {:induction false} TakeIsNext(s: State, cmds: seq<Command>, tenant: Tenant,
                                      limit: int, worker: Worker, lease: int)
    requires limit > 0 && worker != NO_WORKER && lease > 0
    ensures var acts := TakeActions(s.q, cmds, tenant, limit, worker, lease);
            && (acts == [] <==> forall i :: 0 <= i < |cmds| ==> NoWork(s.q, cmds[i], tenant))
            && (acts != [] ==> Enabled(s, acts[0]) && acts[0].Taken? && Next(s.q, cmds, tenant, Subject(s, acts[0])))
    decreases |cmds|
  {
    if cmds != [] {
      var b := QueueBase(cmds[0], tenant);
      var p := Top(s.q, b, MAX_PRIORITY);
      if p >= MIN_PRIORITY {
        assert !NoWork(s.q, cmds[0], tenant);
        assert NextAt(s.q, cmds, tenant, Head(s.q, b, p), 0, p);
      } else {
        assert NoWork(s.q, cmds[0], tenant);
        TakeIsNext(s, cmds[1..], tenant, limit, worker, lease);
        var acts := TakeActions(s.q, cmds[1..], tenant, limit, worker, lease);
        if acts != [] {
          NextShift(s.q, cmds, tenant, Subject(s, acts[0]));
        }
        assert forall i :: 0 < i < |cmds| ==> cmds[i] == cmds[1..][i - 1];
      }
    }
  }

  lemma NextShift(q: Queues, cmds: seq<Command>, tenant: Tenant, id: Id)
    requires cmds != [] && NoWork(q, cmds[0], tenant) && Next(q, cmds[1..], tenant, id)
    ensures Next(q, cmds, tenant, id)
  {
    var rest := cmds[1..];
    var i, p :| NextAt(q, rest, tenant, id, i, p);
    assert rest[i] == cmds[i + 1];
    forall j | 0 <= j < i + 1 ensures NoWork(q, cmds[j], tenant) {
      assert j > 0 ==> cmds[j] == rest[j - 1];
    }
    assert NextAt(q, cmds, tenant, id, i + 1, p);
  }

  // ---------- first in, first out ----------

  /** In the list of (b, p) the id `y` is nearer to the pop end than `x`. */
  ghost predicate Ahead(q: Queues, b: Base, p: int, y: Id, x: Id) {
    exists i, j :: 0 <= i < j < |Pend(q, b, p)| && Pend(q, b, p)[i] == x && Pend(q, b, p)[j] == y
  }

  /** A task put into a list is behind everything already there. */
  lemma EnqueuedBehind(q: Queues, b: Base, p: int, id: Id, y: Id)
    requires y in Pend(q, b, p)
    ensures Ahead(LPush(q, b, p, id), b, p, y, id)
  {
    var l := Pend(q, b, p);
    var j :| 0 <= j < |l| && l[j] == y;
    var r := Pend(LPush(q, b, p, id), b, p);
    assert r[0] == id && r[j + 1] == y;
  }

  /** No action of `acts`, performed from `s`, is about `id`. */
  predicate Untouched(s: State, acts: seq<Action>, id: Id)
    requires EnabledAll(s, acts)
    decreases |acts|
  {
    acts == [] || ((acts[0].Ticked? || Subject(s, acts[0]) != id) && Untouched(Act(s, acts[0]), acts[1..], id))
  }

  /** No action of `acts`, performed from `s`, hands out `id`. */
  predicate NotTaken(s: State, acts: seq<Action>, id: Id)
    requires EnabledAll(s, acts)
    decreases |acts|
  {
    acts == [] || (!(acts[0].Taken? && Subject(s, acts[0]) == id) && NotTaken(Act(s, acts[0]), acts[1..], id))
  }

  lemma PushKeepsAhead(q: Queues, b: Base, p: int, y: Id, x: Id, b1: Base, p1: int, id: Id)
    requires Ahead(q, b, p, y, x)
    ensures Ahead(LPush(q, b1, p1, id), b, p, y, x)
  {
    var l := Pend(q, b, p);
    var i, j :| 0 <= i < j < |l| && l[i] == x && l[j] == y;
    var r := Pend(LPush(q, b1, p1, id), b, p);
    if (b1, p1) == (b, p) {
      assert r[i + 1] == x && r[j + 1] == y;
    } else {
      assert r == l;
    }
  }

  lemma PopKeepsAhead(q: Queues, b: Base, p: int, y: Id, x: Id, b1: Base, p1: int)
    requires Ahead(q, b, p, y, x) && Pend(q, b1, p1) != [] && ((b1, p1) == (b, p) ==> Head(q, b1, p1) != y)
    ensures Ahead(RPop(q, b1, p1), b, p, y, x)
  {
    var l := Pend(q, b, p);
    var i, j :| 0 <= i < j < |l| && l[i] == x && l[j] == y;
    var r := Pend(RPop(q, b1, p1), b, p);
    if (b1, p1) == (b, p) {
      assert r[i] == x && r[j] == y;
    } else {
      assert r == l;
    }
  }

  lemma SamePendingAhead(q: Queues, r: Queues, b: Base, p: int, y: Id, x: Id)
    requires Ahead(q, b, p, y, x) && r.pending == q.pending
    ensures Ahead(r, b, p, y, x)
  {
    assert Pend(r, b, p) == Pend(q, b, p);
  }

  lemma {:induction false} WithoutSplit(l1: seq<Id>, l2: seq<Id>, id: Id)
    ensures Without(l1 + l2, id) == Without(l1, id) + Without(l2, id)
    decreases |l1|
  {
    if l1 == [] {
      assert l1 + l2 == l2;
    } else {
      WithoutSplit(l1[1..], l2, id);
      assert (l1 + l2)[1..] == l1[1..] + l2;
    }
  }

  lemma RemKeepsAhead(q: Queues, b: Base, p: int, y: Id, x: Id, b1: Base, p1: int, id: Id)
    requires Ahead(q, b, p, y, x) && id != x && id != y
    ensures Ahead(LRem(q, b1, p1, id), b, p, y, x)
  {
    var l := Pend(q, b, p);
    var i, j :| 0 <= i < j < |l| && l[i] == x && l[j] == y;
    var r := Pend(LRem(q, b1, p1, id), b, p);
    if (b1, p1) == (b, p) {
      assert l == l[..j] + l[j..];
      WithoutSplit(l[..j], l[j..], id);
      var f, g := Without(l[..j], id), Without(l[j..], id);
      assert x in l[..j] by { assert l[..j][i] == x; }
      assert y in l[j..] by { assert l[j..][0] == y; }
      var i1 :| 0 <= i1 < |f| && f[i1] == x;
      var j1 :| 0 <= j1 < |g| && g[j1] == y;
      assert r == f + g && r[i1] == x && r[|f| + j1] == y;
    } else {
      assert r == l;
    }
  }

  lemma ActKeepsAhead(s: State, a: Action, b: Base, p: int, y: Id, x: Id)
    requires Inv(s) && Enabled(s, a) && Ahead(s.q, b, p, y, x)
    requires a.Ticked? || (Subject(s, a) != y && Subject(s, a) != x)
    ensures Ahead(Act(s, a).q, b, p, y, x)
  {
    if a.Taken? {
      TakeKeepsAhead(s, a, b, p, y, x);
    } else if a.Removed? {
      CleanKeepsAhead(s, a, b, p, y, x);
    } else if a.Created? || a.CameDue? {
      ArriveKeepsAhead(s, a, b, p, y, x);
    } else if a.Abandoned? {
      var t := s.tasks[a.id];
      var q1 := SRemInprog(s.q, HomeBase(t), a.id);
      SamePendingAhead(s.q, q1, b, p, y, x);
      PushKeepsAhead(q1, b, p, y, x, HomeBase(t), NormalizePriority(t.priority), a.id);
    } else {
      SamePendingAhead(s.q, Act(s, a).q, b, p, y, x);
    }
  }

  lemma TakeKeepsAhead(s: State, a: Action, b: Base, p: int, y: Id, x: Id)
    requires Inv(s) && Enabled(s, a) && Ahead(s.q, b, p, y, x) && a.Taken? && Subject(s, a) != y
    ensures Ahead(Act(s, a).q, b, p, y, x)
  {
    var top := Top(s.q, a.base, MAX_PRIORITY);
    PopKeepsAhead(s.q, b, p, y, x, a.base, top);
    SamePendingAhead(RPop(s.q, a.base, top), PopTop(s.q, a.base, top), b, p, y, x);
  }

  lemma ArriveKeepsAhead(s: State, a: Action, b: Base, p: int, y: Id, x: Id)
    requires Enabled(s, a) && Ahead(s.q, b, p, y, x) && (a.Created? || a.CameDue?)
    ensures Ahead(Act(s, a).q, b, p, y, x)
  {
    if a.Created? {
      PushKeepsAhead(s.q, b, p, y, x, QueueBase(a.cmd, a.tenant), NormalizePriority(a.priority), a.id);
      var q1 := if a.visibleAt.Some? then ZAddDelayed(s.q, QueueBase(a.cmd, a.tenant), a.id, a.visibleAt.value)
                else s.q;
      SamePendingAhead(s.q, q1, b, p, y, x);
    } else {
      var q1 := ZRemDelayed(s.q, QueueBase(a.cmd, a.from), a.id);
      SamePendingAhead(s.q, q1, b, p, y, x);
      if a.id in s.tasks {
        var t := s.tasks[a.id];
        PushKeepsAhead(q1, b, p, y, x, QueueBase(a.cmd, if a.legacy then t.tenant else a.from),
                       NormalizePriority(t.priority), a.id);
      }
    }
  }

  lemma CleanKeepsAhead(s: State, a: Action, b: Base, p: int, y: Id, x: Id)
    requires Enabled(s, a) && Ahead(s.q, b, p, y, x) && a.Removed? && a.id != y && a.id != x
    ensures Ahead(Act(s, a).q, b, p, y, x)
  {
    var t := s.tasks[a.id];
    var h := HomeBase(t);
    RemKeepsAhead(s.q, b, p, y, x, h, NormalizePriority(t.priority), a.id);
    var q1 := if t.loc == Unset || t.loc == PendingList then LRem(s.q, h, NormalizePriority(t.priority), a.id) else s.q;
    SamePendingAhead(q1, SRemDlq(ZRemDelayed(SRemInprog(q1, h, a.id), h, a.id), h, a.id), b, p, y, x);
  }

  /** A pending task is acted on only by a take or by cleanup. */
  lemma PendingSubject(s: State, a: Action, b: Base, p: int, x: Id)
    requires Inv(s) && Enabled(s, a) && x in Pend(s.q, b, p) && !a.Ticked? && Subject(s, a) == x
    ensures a.Removed? || (a.Taken? && Head(s.q, b, p) == x)
  {
    assert In(s.q, x, PendingAt(b, p));
    assert TaskOk(x, s.tasks[x]);
    if a.CameDue? {
      DueIsDelayed(s, a);
    } else if a.Taken? {
      TakenIsPending(s, a);
    }
  }

  lemma DueIsDelayed(s: State, a: Action)
    requires Enabled(s, a) && a.CameDue?
    ensures In(s.q, Subject(s, a), DelayedAt(QueueBase(a.cmd, a.from)))
  {
  }

  lemma TakenIsPending(s: State, a: Action)
    requires Enabled(s, a) && a.Taken?
    ensures In(s.q, Subject(s, a), PendingAt(a.base, Top(s.q, a.base, MAX_PRIORITY)))
  {
  }

  /** FIFO: as long as a task that is ahead in its pending list stays there, and the one behind it is
      not deleted by cleanup, no run of actions hands out the one behind. */
  lemma {:induction false} NoOvertaking(s: State, acts: seq<Action>, b: Base, p: int, y: Id, x: Id)
    requires Inv(s) && EnabledAll(s, acts) && Ahead(s.q, b, p, y, x)
    requires Untouched(s, acts, y)
    requires forall i :: 0 <= i < |acts| ==> !(acts[i].Removed? && acts[i].id == x)
    ensures NotTaken(s, acts, x)
    decreases |acts|
  {
    if acts != [] {
      var a := acts[0];
      ActEffect(s, a);
      assert x in Pend(s.q, b, p);
      if !a.Ticked? && Subject(s, a) == x {
        PendingSubject(s, a, b, p, x);
      } else {
        ActKeepsAhead(s, a, b, p, y, x);
        NoOvertaking(Act(s, a), acts[1..], b, p, y, x);
      }
    }
  }

}
