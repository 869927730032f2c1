/** The in-memory lease table of the embedded backend and the reaper that requeues tasks whose
    lease has run out. */
module LeaseReaper {
  import opened Sequences
  import opened TaskTypes
  import opened Wrappers
  import Bytes
  import Keys
  import LeaseKeys
  import Lifecycle
  import Markers

  /** Ids, commands and tenants are the bytes that make up the keys of the store. */
  type Id = Bytes.Key

  datatype Queue = Queue(cmd: Bytes.Key, tenant: Bytes.Key)

  datatype LeaseEntry = LeaseEntry(worker: Worker, queue: Queue, until: int)

  type Table = map<Id, LeaseEntry>

  /** The fields of a stored task the reaper reads or writes. */
  datatype Record = Record(
    queue: Queue, status: Status, loc: Location, worker: Worker, leaseUntil: Option<int>,
    attempts: int, maxAttempts: int, error: string, updatedAt: int)

  /** A queue key of the store. */
  datatype Spot =
    | PendingSpot(queue: Queue, prio: nat, seqNo: nat, id: Id)
    | DelayedSpot(queue: Queue, score: nat, id: Id)
    | InprogSpot(queue: Queue, id: Id)
    | DlqSpot(queue: Queue, id: Id)

  /** The stored key; sequence numbers and scores are 64-bit numbers. */
  function SpotKey(s: Spot): Bytes.Key {
    match s
    case PendingSpot(q, prio, n, id) => Keys.KeyPending(q.cmd, q.tenant, prio, n % (Bytes.MAX64 + 1), id)
    case DelayedSpot(q, score, id) => Keys.KeyDelayed(q.cmd, q.tenant, score % (Bytes.MAX64 + 1), id)
    case InprogSpot(q, id) => Keys.KeyInprog(q.cmd, q.tenant, id)
    case DlqSpot(q, id) => Keys.KeyDlq(q.cmd, q.tenant, id)
  }

  datatype Disk = Disk(tasks: map<Id, Record>, index: set<Spot>)

  const DEFAULT_LIMIT := 256

  // ---------- requeue of one task ----------

  function NonNegative(x: int): nat { if x < 0 then 0 else x }

  /** What the environment supplies for one visit: the time of the requeue, the backoff delay,
      whether the commit succeeds. */
  datatype Visit = Visit(at: int, delay: int, ok: bool)

  function Reaped(t: Record, v: Visit, maxDefault: int): Record {
    var t1 := t.(attempts := t.attempts + 1, maxAttempts := Lifecycle.EffectiveMax(t.maxAttempts, maxDefault),
                 worker := NO_WORKER, leaseUntil := None, updatedAt := v.at);
    if t1.attempts >= t1.maxAttempts then t1.(status := Failed, loc := DlqSet, error := "LEASE_EXPIRED")
    else t1.(status := Pending, loc := DelayedZSet)
  }

  /** Where a reaped task goes: the DLQ once its attempts are used up, else the delayed queue. */
  function NewSpot(t: Record, id: Id, v: Visit, maxDefault: int): Spot {
    if t.attempts + 1 >= Lifecycle.EffectiveMax(t.maxAttempts, maxDefault) then DlqSpot(t.queue, id)
    else DelayedSpot(t.queue, NonNegative(v.at + v.delay), id)
  }

  function Requeued(d: Disk, id: Id, v: Visit, maxDefault: int): Disk
    requires id in d.tasks
  {
    var t := d.tasks[id];
    Disk(d.tasks[id := Reaped(t, v, maxDefault)],
         d.index - {InprogSpot(t.queue, id)} + {NewSpot(t, id, v, maxDefault)})
  }

  /** One step of a sweep: a lease extended meanwhile is left alone; an entry without a task in
      progress is dropped; else the task is requeued in one batch and the entry dropped, unless the
      batch fails. */
  function Visited(d: Disk, m: Table, id: Id, now: int, v: Visit, maxDefault: int): (Disk, Table) {
    if id in m && m[id].until > now then (d, m)
    else if id !in d.tasks || d.tasks[id].status != InProgress then (d, m - {id})
    else if !v.ok then (d, m)
    else (Requeued(d, id, v, maxDefault), m - {id})
  }

  function Swept(d: Disk, m: Table, ids: seq<Id>, now: int, vs: seq<Visit>, maxDefault: int): (Disk, Table)
    requires |vs| == |ids|
    decreases |ids|
  {
    if ids == [] then (d, m)
    else
      var r := Visited(d, m, ids[0], now, vs[0], maxDefault);
      Swept(r.0, r.1, ids[1..], now, vs[1..], maxDefault)
  }

  // ---------- safety ----------

  /** A task in progress is in its queue's in-progress set and in no other queue. */
  ghost predicate InOnePlace(d: Disk) {
    forall id :: id in d.tasks && d.tasks[id].status == InProgress ==>
      forall s :: s in d.index && s.id == id ==> s == InprogSpot(d.tasks[id].queue, id)
  }

  ghost predicate OnlyAt(d: Disk, id: Id, spot: Spot) {
    forall s :: s in d.index && s.id == id <==> s == spot
  }

  /** Nothing about any other task changes. */
  ghost predicate OthersKept(d: Disk, m: Table, d1: Disk, m1: Table, id: Id) {
    && (forall i :: i != id ==> (i in d.tasks <==> i in d1.tasks) && (i in d.tasks ==> d1.tasks[i] == d.tasks[i]))
    && (forall s: Spot :: s.id != id ==> (s in d.index <==> s in d1.index))
    && (forall i :: i != id ==> (i in m <==> i in m1) && (i in m ==> m1[i] == m[i]))
  }

  /** What becomes of a task that a visit takes out of progress: one more attempt, no worker and no lease,
      and from then on it is at one place only. That is the DLQ if the attempts reach the limit (the task's
      own if positive, else the default if positive, else one), else the delayed queue at the time of the
      visit plus the delay, not below zero. */
  ghost predicate TakenOut(d: Disk, d1: Disk, id: Id, v: Visit, maxDefault: int)
    requires id in d.tasks
  {
    var t := d.tasks[id];
    var limit := if t.maxAttempts > 0 then t.maxAttempts else if maxDefault > 0 then maxDefault else 1;
    var due := if v.at + v.delay < 0 then 0 else v.at + v.delay;
    var t1 := t.(attempts := t.attempts + 1, maxAttempts := limit, worker := NO_WORKER, leaseUntil := None,
                 updatedAt := v.at);
    && id in d1.tasks
    && if t.attempts + 1 >= limit then
         d1.tasks[id] == t1.(status := Failed, loc := DlqSet, error := "LEASE_EXPIRED")
         && OnlyAt(d1, id, DlqSpot(t.queue, id))
       else
         d1.tasks[id] == t1.(status := Pending, loc := DelayedZSet) && OnlyAt(d1, id, DelayedSpot(t.queue, due, id))
  }

  /** A visit leaves alone an entry that reaches past `now`. Otherwise it drops the entry of a task that is
      not in progress, takes a task in progress out of it in one step and drops its entry, or, if the commit
      fails, changes neither store nor table. No other task is touched. */
  lemma VisitSafe(d: Disk, m: Table, id: Id, now: int, v: Visit, maxDefault: int)
    requires InOnePlace(d)
    ensures var (d1, m1) := Visited(d, m, id, now, v, maxDefault);
            InOnePlace(d1) && OthersKept(d, m, d1, m1, id)
    ensures var (d1, m1) := Visited(d, m, id, now, v, maxDefault);
            var live := id in m && m[id].until > now;
            var busy := id in d.tasks && d.tasks[id].status == InProgress;
            && (live ==> d1 == d && m1 == m)
            && (!live && !busy ==> d1 == d && m1 == m - {id})
            && (!live && busy && !v.ok ==> d1 == d && m1 == m)
            && (!live && busy && v.ok ==> d1 != d && m1 == m - {id} && TakenOut(d, d1, id, v, maxDefault))
  {
    var (d1, m1) := Visited(d, m, id, now, v, maxDefault);
    if d1 != d {
      var t := d.tasks[id];
      forall s ensures s in d1.index && s.id == id <==> s == NewSpot(t, id, v, maxDefault) {
        if s in d.index && s.id == id {
          assert s == InprogSpot(t.queue, id);
        }
      }
    }
  }

  // ---------- progress ----------

  function Expired(m: Table, now: int): set<Id> {
    set id | id in m && m[id].until <= now
  }

  /** A failure-free sweep over expired entries takes exactly them out of the table, and leaves no
      task among them in progress. */
  lemma {:induction false} SweepClears(d: Disk, m: Table, ids: seq<Id>, now: int, vs: seq<Visit>, maxDefault: int)
    requires |vs| == |ids| && NoRepeats(ids) && forall i :: 0 <= i < |vs| ==> vs[i].ok
    requires forall i :: 0 <= i < |ids| ==> ids[i] in Expired(m, now)
    ensures Swept(d, m, ids, now, vs, maxDefault).1 == m - Elements(ids)
    ensures var d1 := Swept(d, m, ids, now, vs, maxDefault).0;
            d1.tasks.Keys == d.tasks.Keys
            && (forall id :: id in Elements(ids) && id in d1.tasks ==> d1.tasks[id].status != InProgress)
            && (forall id :: id !in Elements(ids) && id in d1.tasks ==> d1.tasks[id] == d.tasks[id])
    decreases |ids|
  {
    if ids == [] {
      assert m - Elements(ids) == m;
    } else {
      var r := Visited(d, m, ids[0], now, vs[0], maxDefault);
      var rest := ids[1..];
      assert r.1 == m - {ids[0]};
      assert forall i :: 0 <= i < |rest| ==> rest[i] == ids[i + 1];
      SweepClears(r.0, r.1, rest, now, vs[1..], maxDefault);
      ElementsCons(ids);
      assert ids[0] !in Elements(rest);
      assert m - {ids[0]} - Elements(rest) == m - Elements(ids);
    }
  }

  /** What a snapshot of expired entries may be: some of them, all if they fit the limit. */
  ghost predicate IsSnapshot(m: Table, now: int, limit: nat, ids: seq<Id>) {
    && NoRepeats(ids) && |ids| <= limit
    && (forall i :: 0 <= i < |ids| ==> ids[i] in Expired(m, now))
    && (|ids| < limit ==> forall id :: id in Expired(m, now) ==> id in ids)
  }

  /** One failure-free sweep with its snapshot leaves at most `limit` fewer expired entries, none
      when they fit. */
  lemma SweepCounts(d: Disk, m: Table, limit: nat, ids: seq<Id>, now: int, vs: seq<Visit>, maxDefault: int)
    requires IsSnapshot(m, now, limit, ids)
    requires |vs| == |ids| && forall i :: 0 <= i < |vs| ==> vs[i].ok
    ensures var m1 := Swept(d, m, ids, now, vs, maxDefault).1;
            Expired(m1, now) <= Expired(m, now)
            && |Expired(m1, now)| == if |Expired(m, now)| <= limit then 0 else |Expired(m, now)| - limit
  {
    SweepClears(d, m, ids, now, vs, maxDefault);
    var m1 := Swept(d, m, ids, now, vs, maxDefault).1;
    var e, x := Expired(m, now), Elements(ids);
    assert Expired(m1, now) == e - x;
    CountElements(ids);
    assert x <= e;
    assert |e - x| == |e| - |ids| by {
      assert e == (e - x) + x;
    }
    if |ids| < limit {
      assert e - x == {};
    }
  }

  /** Consecutive sweeps at one time: the ids each snapshot picked and how the visits went. */
  datatype Sweep = Sweep(ids: seq<Id>, visits: seq<Visit>)

  function AfterSweeps(d: Disk, m: Table, ss: seq<Sweep>, now: int, maxDefault: int): (Disk, Table)
    requires forall i :: 0 <= i < |ss| ==> |ss[i].ids| == |ss[i].visits|
    decreases |ss|
  {
    if ss == [] then (d, m)
    else
      var r := Swept(d, m, ss[0].ids, now, ss[0].visits, maxDefault);
      AfterSweeps(r.0, r.1, ss[1..], now, maxDefault)
  }

  /** Every sweep works on a snapshot of its table and no commit fails. */
  ghost predicate FailureFree(d: Disk, m: Table, ss: seq<Sweep>, now: int, limit: nat, maxDefault: int)
    decreases |ss|
  {
    && (forall i :: 0 <= i < |ss| ==> |ss[i].ids| == |ss[i].visits|)
    && (ss == [] ||
        (&& (forall i :: 0 <= i < |ss[0].visits| ==> ss[0].visits[i].ok)
         && IsSnapshot(m, now, limit, ss[0].ids)
         && var r := Swept(d, m, ss[0].ids, now, ss[0].visits, maxDefault);
            FailureFree(r.0, r.1, ss[1..], now, limit, maxDefault)))
  }

  /** As many sweeps as the expired entries fill batches take every one of them out of the table and
      leave no task of theirs in progress; every other task is untouched. */
  lemma {:induction false} Drain(d: Disk, m: Table, ss: seq<Sweep>, now: int, limit: nat, maxDefault: int)
    requires FailureFree(d, m, ss, now, limit, maxDefault)
    requires |Expired(m, now)| <= |ss| * limit
    ensures var (d1, m1) := AfterSweeps(d, m, ss, now, maxDefault);
            Expired(m1, now) == {}
            && d1.tasks.Keys == d.tasks.Keys
            && (forall id :: id in Expired(m, now) && id in d1.tasks ==> d1.tasks[id].status != InProgress)
            && (forall id :: id !in Expired(m, now) && id in d1.tasks ==> d1.tasks[id] == d.tasks[id])
    decreases |ss|
  {
    if ss != [] {
      var s := ss[0];
      var r := Swept(d, m, s.ids, now, s.visits, maxDefault);
      SweepCounts(d, m, limit, s.ids, now, s.visits, maxDefault);
      SweepClears(d, m, s.ids, now, s.visits, maxDefault);
      OneSweepLess(|ss|, limit, |Expired(m, now)|);
      assert forall i :: 0 <= i < |ss[1..]| ==> ss[1..][i] == ss[i + 1];
      Drain(r.0, r.1, ss[1..], now, limit, maxDefault);
    }
  }

  lemma OneSweepLess(n: nat, limit: nat, expired: nat)
    requires n > 0 && expired <= n * limit
    ensures (if expired <= limit then 0 else expired - limit) <= (n - 1) * limit
  {
    assert (n - 1) * limit == n * limit - limit;
  }

  // ---------- recovery ----------

  /** A stored task whose lease can be rebuilt. */
  predicate HasLease(d: Disk, id: Id) {
    id in d.tasks && d.tasks[id].leaseUntil.Some? && d.tasks[id].worker != NO_WORKER
  }

  function EntryOf(t: Record): LeaseEntry
    requires t.leaseUntil.Some?
  {
    LeaseEntry(t.worker, t.queue, t.leaseUntil.value)
  }

  /** The id recovery reads from a queue key of the store. */
  function IdRead(s: Spot): Option<Id> {
    LeaseKeys.ReadId(SpotKey(s))
  }

  /** The table rebuilt from the store: one entry for every id read from a queue key whose task
      names a worker and the end of its lease. */
  ghost predicate IsRecovered(d: Disk, m: Table) {
    && (forall id :: id in m <==> HasLease(d, id) && exists s :: s in d.index && IdRead(s) == Some(id))
    && (forall id :: id in m ==> m[id] == EntryOf(d.tasks[id]))
  }

  /** The table holds exactly the leases the tasks in progress record. */
  ghost predicate Mirrors(d: Disk, m: Table) {
    && (forall id :: id in m <==> id in d.tasks && d.tasks[id].status == InProgress)
    && (forall id :: id in m ==> HasLease(d, id) && m[id] == EntryOf(d.tasks[id]))
  }

  /** The in-progress sets hold exactly the tasks in progress, and a task in another queue records
      no lease. */
  ghost predicate Indexed(d: Disk) {
    && (forall s :: s in d.index && s.InprogSpot? ==> s.id in d.tasks && d.tasks[s.id].status == InProgress)
    && (forall s :: s in d.index && !s.InprogSpot? ==> !HasLease(d, s.id))
    && (forall id :: id in d.tasks && d.tasks[id].status == InProgress ==>
          InprogSpot(d.tasks[id].queue, id) in d.index)
  }

  /** Task ids hold no slash. */
  ghost predicate PlainIds(d: Disk) {
    && (forall id :: id in d.tasks ==> Keys.SLASH !in id)
    && (forall s :: s in d.index ==> Keys.SLASH !in s.id)
  }

  /** Recovery can read the ids of a queue: "/inprog/" does not occur in the queue's base. */
  ghost predicate Readable(q: Queue) {
    Markers.MarkerOnce(q.cmd, q.tenant, Keys.INPROG)
  }

  /** The id of a queue key is its last segment. */
  lemma SpotIdIsLast(s: Spot)
    requires Keys.SLASH !in s.id
    ensures Keys.LastSegment(SpotKey(s)) == Some(s.id)
  {
    var k := SpotKey(s);
    var i := |k| - |s.id| - 1;
    assert k[i] == Keys.SLASH && k[i + 1..] == s.id;
    Keys.LastSegmentUnique(k, i);
  }

  /** The only queue key a slash-free id can be read from is one of its own. */
  lemma ReadFromOwnKey(s: Spot, id: Id)
    requires IdRead(s) == Some(id) && Keys.SLASH !in id && Keys.SLASH !in s.id
    ensures s.id == id
  {
    SpotIdIsLast(s);
    LeaseKeys.ReadsLastSegment(SpotKey(s), id);
  }

  lemma InprogRead(q: Queue, id: Id)
    ensures IdRead(InprogSpot(q, id)) == Some(id) <==> Readable(q)
  {
    LeaseKeys.ReadsIdExactly(q.cmd, q.tenant, id);
  }

  /** Recovery finds exactly the tasks in progress whose queue it can read. */
  lemma RecoveredExactly(d: Disk, m: Table, id: Id)
    requires PlainIds(d) && InOnePlace(d) && Indexed(d) && IsRecovered(d, m)
    ensures id in m <==> HasLease(d, id) && d.tasks[id].status == InProgress && Readable(d.tasks[id].queue)
  {
    if HasLease(d, id) {
      var spot := InprogSpot(d.tasks[id].queue, id);
      InprogRead(d.tasks[id].queue, id);
      if id in m {
        var s :| s in d.index && IdRead(s) == Some(id);
        ReadFromOwnKey(s, id);
        assert s.InprogSpot?;
        assert s == spot;
      } else if d.tasks[id].status == InProgress {
        assert spot in d.index;
      }
    }
  }

  lemma SameTable(before: Table, after: Table, kept: set<Id>)
    requires forall id :: id in after <==> id in before && id in kept
    requires forall id :: id in after ==> after[id] == before[id]
    ensures after == before <==> forall id :: id in before ==> id in kept
  {
    if forall id :: id in before ==> id in kept {
      assert after.Keys == before.Keys;
    }
  }

  /** A restart goes unnoticed exactly when every task in progress is in a queue that recovery can
      read. */
  lemma RestartTransparent(d: Disk, before: Table, after: Table)
    requires PlainIds(d) && InOnePlace(d) && Indexed(d) && Mirrors(d, before) && IsRecovered(d, after)
    ensures after == before <==>
            forall id :: id in d.tasks && d.tasks[id].status == InProgress ==> Readable(d.tasks[id].queue)
  {
    hide Readable, PlainIds, InOnePlace, Indexed;
    var kept := set id | id in before && Readable(d.tasks[id].queue);
    forall id ensures id in after <==> id in kept {
      RecoveredExactly(d, after, id);
    }
    SameTable(before, after, kept);
  }

  /** A visit keeps table and store in step, so what is said about a restart holds between any two
      visits. */
  lemma VisitKeepsMirror(d: Disk, m: Table, id: Id, now: int, v: Visit, maxDefault: int)
    requires PlainIds(d) && InOnePlace(d) && Indexed(d) && Mirrors(d, m)
    ensures var (d1, m1) := Visited(d, m, id, now, v, maxDefault);
            PlainIds(d1) && InOnePlace(d1) && Indexed(d1) && Mirrors(d1, m1)
  {
    VisitSafe(d, m, id, now, v, maxDefault);
    var (d1, m1) := Visited(d, m, id, now, v, maxDefault);
    if d1 != d {
      var spot := NewSpot(d.tasks[id], id, v, maxDefault);
      assert OnlyAt(d1, id, spot) && !spot.InprogSpot?;
      forall i | i in d1.tasks && d1.tasks[i].status == InProgress
        ensures InprogSpot(d1.tasks[i].queue, i) in d1.index
      {
        assert i != id;
      }
      forall s | s in d1.index && s.InprogSpot? ensures s.id in d1.tasks && d1.tasks[s.id].status == InProgress {
        assert s.id != id;
      }
    }
  }

  lemma {:induction false} SweepKeepsMirror(d: Disk, m: Table, ids: seq<Id>, now: int, vs: seq<Visit>, maxDefault: int)
    requires |vs| == |ids| && PlainIds(d) && InOnePlace(d) && Indexed(d) && Mirrors(d, m)
    ensures var (d1, m1) := Swept(d, m, ids, now, vs, maxDefault);
            PlainIds(d1) && InOnePlace(d1) && Indexed(d1) && Mirrors(d1, m1)
    decreases |ids|
  {
    if ids != [] {
      VisitKeepsMirror(d, m, ids[0], now, vs[0], maxDefault);
      var r := Visited(d, m, ids[0], now, vs[0], maxDefault);
      SweepKeepsMirror(r.0, r.1, ids[1..], now, vs[1..], maxDefault);
    }
  }

  lemma RecoveredExpired(d: Disk, m: Table, now: int, id: Id)
    requires PlainIds(d) && InOnePlace(d) && Indexed(d) && IsRecovered(d, m)
    requires HasLease(d, id) && d.tasks[id].status == InProgress
    ensures id in Expired(m, now) <==> d.tasks[id].leaseUntil.value <= now && Readable(d.tasks[id].queue)
  {
    hide Readable, PlainIds, InOnePlace, Indexed;
    RecoveredExactly(d, m, id);
  }

  /** After a restart, sweeps that fill enough batches requeue a task in progress exactly when its
      recorded lease has run out and recovery can read its queue; no other task is touched. */
  lemma RecoveredDrain(d: Disk, m: Table, ss: seq<Sweep>, now: int, limit: nat, maxDefault: int, id: Id)
    requires PlainIds(d) && InOnePlace(d) && Indexed(d) && IsRecovered(d, m)
    requires FailureFree(d, m, ss, now, limit, maxDefault)
    requires |Expired(m, now)| <= |ss| * limit
    requires HasLease(d, id) && d.tasks[id].status == InProgress
    ensures var d1 := AfterSweeps(d, m, ss, now, maxDefault).0;
            id in d1.tasks
            && (d1.tasks[id].status != InProgress <==>
                d.tasks[id].leaseUntil.value <= now && Readable(d.tasks[id].queue))
            && (d1.tasks[id].status == InProgress ==> d1.tasks[id] == d.tasks[id])
  {
    RecoveredExpired(d, m, now, id);
    Drain(d, m, ss, now, limit, maxDefault);
  }

  /** A task in progress of command "c" and tenant "inprog": recovery reads "inprog/" and its id,
      finds no task by that name and rebuilds no lease, so the table does not come back. */
  lemma TenantInprogLost(t: Record, id: Id, before: Table, after: Table)
    requires t.status == InProgress && t.leaseUntil.Some? && t.worker != NO_WORKER && Keys.SLASH !in id
    requires t.queue == Queue([99], LeaseKeys.WORD)
    requires var d := Disk(map[id := t], {InprogSpot(t.queue, id)}); Mirrors(d, before) && IsRecovered(d, after)
    ensures IdRead(InprogSpot(t.queue, id)) == Some(LeaseKeys.WORD + [Keys.SLASH] + id)
    ensures id in before && after == map[]
  {
    var d := Disk(map[id := t], {InprogSpot(t.queue, id)});
    assert Keys.CmdSeg([99]) == [99];
    LeaseKeys.EarlyMarkerMisreads([99], LeaseKeys.WORD, id);
    hide LeaseKeys.ReadId, SpotKey;
    assert |LeaseKeys.WORD + [Keys.SLASH] + id| > |id|;
    assert after.Keys == {};
  }

  // ---------- the lease table ----------

  class LeaseTable {
    var m: Table

    constructor ()
      ensures m == map[]
    {
      m := map[];
    }

    /** Installs a lease, replacing any earlier one. */
    method Set(id: Id, worker: Worker, queue: Queue, until: int)
      modifies this
      ensures m == old(m)[id := LeaseEntry(worker, queue, until)]
    {
      m := m[id := LeaseEntry(worker, queue, until)];
    }

    method Delete(id: Id)
      modifies this
      ensures m == old(m) - {id}
    {
      m := m - {id};
    }

    method Get(id: Id) returns (e: Option<LeaseEntry>)
      ensures e == if id in m then Some(m[id]) else None
    {
      e := if id in m then Some(m[id]) else None;
    }

    /** Extends a lease for its owner; anyone else changes nothing. */
    method Extend(id: Id, worker: Worker, until: int) returns (ok: bool)
      modifies this
      ensures ok <==> id in old(m) && old(m)[id].worker == worker
      ensures m == if ok then old(m)[id := old(m)[id].(until := until)] else old(m)
    {
      ok := id in m && m[id].worker == worker;
      if ok {
        m := m[id := m[id].(until := until)];
      }
    }

    /** Expired ids, at most `limit` of them (256 when it is not positive), met in whatever order the
        map iterates. */
    method SnapshotExpired(now: int, limit: int, order: seq<Id>) returns (ids: seq<Id>)
      requires NoRepeats(order) && forall id :: id in order <==> id in m
      ensures IsSnapshot(m, now, if limit <= 0 then DEFAULT_LIMIT else limit, ids)
    {
      var max := if limit <= 0 then DEFAULT_LIMIT else limit;
      ids := [];
      var i := 0;
      while i < |order| && |ids| < max
        invariant 0 <= i <= |order| && |ids| <= max && NoRepeats(ids)
        invariant forall j :: 0 <= j < |ids| ==> ids[j] in Expired(m, now) && ids[j] in order[..i]
        invariant forall j :: 0 <= j < i && order[j] in Expired(m, now) ==> order[j] in ids
      {
        assert order[i] in m;
        if m[order[i]].until <= now {
          assert order[i] !in order[..i];
          ids := ids + [order[i]];
        }
        i := i + 1;
      }
    }
  }

  class Reaper {
    var tasks: map<Id, Record>
    var index: set<Spot>
    const leases: LeaseTable
    const maxDefault: int

    constructor (table: LeaseTable, d: Disk, limit: int)
      ensures leases == table && Data() == d && maxDefault == limit
    {
      leases, tasks, index, maxDefault := table, d.tasks, d.index, limit;
    }

    ghost function Data(): Disk
      reads this
    {
      Disk(tasks, index)
    }

    /** Moves a task out of progress in one batch; a failed commit changes nothing. */
    method RequeueExpiredOne(id: Id, v: Visit) returns (ok: bool)
      requires id in tasks
      modifies this, leases
      ensures ok == v.ok
      ensures Data() == if ok then Requeued(old(Data()), id, v, maxDefault) else old(Data())
      ensures leases.m == if ok then old(leases.m) - {id} else old(leases.m)
    {
      var t := tasks[id];
      t := t.(attempts := t.attempts + 1);
      if t.maxAttempts <= 0 {
        t := t.(maxAttempts := maxDefault);
      }
      if t.maxAttempts <= 0 {
        t := t.(maxAttempts := 1);
      }
      t := t.(worker := NO_WORKER, leaseUntil := None, updatedAt := v.at);
      var spot;
      if t.attempts >= t.maxAttempts {
        t := t.(status := Failed, loc := DlqSet, error := "LEASE_EXPIRED");
        spot := DlqSpot(t.queue, id);
      } else {
        t := t.(status := Pending, loc := DelayedZSet);
        spot := DelayedSpot(t.queue, NonNegative(v.at + v.delay), id);
      }
      if !v.ok {
        return false;
      }
      tasks := tasks[id := t];
      index := index - {InprogSpot(t.queue, id)} + {spot};
      leases.Delete(id);
      return true;
    }

    method VisitOne(id: Id, now: int, v: Visit)
      modifies this, leases
      ensures (Data(), leases.m) == Visited(old(Data()), old(leases.m), id, now, v, maxDefault)
    {
      var e := leases.Get(id);
      if e.Some? && e.value.until > now {
        return;
      }
      if id !in tasks || tasks[id].status != InProgress {
        leases.Delete(id);
        return;
      }
      var _ := RequeueExpiredOne(id, v);
    }

    /** One tick: snapshot the expired leases, then visit them one by one. */
    method SweepLeases(now: int, batch: int, order: seq<Id>, visits: map<Id, Visit>) returns (ids: seq<Id>)
      requires NoRepeats(order) && forall id :: id in order <==> id in leases.m
      requires forall id :: id in order ==> id in visits
      modifies this, leases
      ensures IsSnapshot(old(leases.m), now, if batch <= 0 then DEFAULT_LIMIT else batch, ids)
      ensures forall i :: 0 <= i < |ids| ==> ids[i] in visits
      ensures (Data(), leases.m) == Swept(old(Data()), old(leases.m), ids, now, Picked(ids, visits), maxDefault)
    {
      ids := leases.SnapshotExpired(now, batch, order);
      var i := 0;
      assert ids[0..] == ids;
      while i < |ids|
        invariant 0 <= i <= |ids|
        invariant forall j :: 0 <= j < |ids| ==> ids[j] in visits
        invariant Swept(Data(), leases.m, ids[i..], now, Picked(ids[i..], visits), maxDefault)
                  == Swept(old(Data()), old(leases.m), ids, now, Picked(ids, visits), maxDefault)
      {
        assert ids[i..][1..] == ids[i + 1..];
        assert Picked(ids[i..], visits)[1..] == Picked(ids[i + 1..], visits);
        VisitOne(ids[i], now, visits[ids[i]]);
        i := i + 1;
      }
    }

    /** Rebuilds the lease table from a scan of the queue keys. */
    method RecoverLeases(scan: seq<Bytes.Key>)
      requires leases.m == map[]
      requires forall s :: s in index ==> SpotKey(s) in scan
      requires forall k :: k in scan ==> exists s :: s in index && SpotKey(s) == k
      modifies leases
      ensures IsRecovered(Data(), leases.m)
    {
      var i := 0;
      while i < |scan|
        invariant 0 <= i <= |scan|
        invariant forall id :: id in leases.m ==>
                    HasLease(Data(), id) && leases.m[id] == EntryOf(tasks[id])
                    && exists k :: k in scan && LeaseKeys.ReadId(k) == Some(id)
        invariant forall j, id :: 0 <= j < i && LeaseKeys.ReadId(scan[j]) == Some(id) && HasLease(Data(), id) ==>
                    id in leases.m
      {
        var read := LeaseKeys.ReadId(scan[i]);
        if read.Some? && read.value in tasks {
          var t := tasks[read.value];
          if t.leaseUntil.Some? && t.worker != NO_WORKER {
            assert scan[i] in scan;
            leases.Set(read.value, t.worker, t.queue, t.leaseUntil.value);
          }
        }
        i := i + 1;
      }
    }
  }

  function Picked(ids: seq<Id>, visits: map<Id, Visit>): (vs: seq<Visit>)
    requires forall i :: 0 <= i < |ids| ==> ids[i] in visits
    ensures |vs| == |ids| && forall i :: 0 <= i < |ids| ==> vs[i] == visits[ids[i]]
  {
    if ids == [] then [] else [visits[ids[0]]] + Picked(ids[1..], visits)
  }

}
