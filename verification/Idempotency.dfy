/** Enqueue under an idempotency key, with a local Bloom filter in front of Redis. */
module Idempotency {
  import opened TaskTypes
  import opened Wrappers
  import opened RedisState
  import opened Lifecycle
  import opened Partition
  import opened Actions
  import opened Calls
  import opened Runs
  import opened Leases
  import opened Retries
  import opened TaskRepository
  import opened Answers

  /** Idempotency keys are only ever compared. */
  type IdemKey = nat

  /** An idempotency key in Redis: the task id it stands for, until `expiry`. */
  datatype Entry = Entry(id: Id, expiry: int)

  /** The request of an enqueue. */
  datatype Spec = Spec(cmd: Command, payload: string, priority: int, webhook: string, maxAttempts: int,
                       visibleAt: Option<int>, tenant: Tenant)

  datatype Keyed = Keyed(s: State, idem: map<IdemKey, Entry>)

  datatype EnqueueResult = Existing(task: Task) | Fresh(task: Task) | Conflict

  /** GET key. */
  function Lookup(k: Keyed, key: IdemKey): Option<Id> {
    if key in k.idem && k.s.now < k.idem[key].expiry then Some(k.idem[key].id) else None
  }

  /** SETNX key id, for 24 hours. */
  function SetIfAbsent(k: Keyed, key: IdemKey, id: Id): (Keyed, bool) {
    if Lookup(k, key).Some? then (k, false)
    else (k.(idem := k.idem[key := Entry(id, k.s.now + RETENTION)]), true)
  }

  function EnqueueSpec(k: Keyed, id: Id, spec: Spec): (Keyed, EnqueueResult) {
    (k.(s := Enqueue(k.s, id, spec.cmd, spec.payload, spec.priority, spec.webhook,
                     spec.maxAttempts, spec.visibleAt, spec.tenant)),
     Fresh(NewTask(k.s, id, spec.cmd, spec.payload, spec.priority, spec.webhook,
                   spec.maxAttempts, spec.visibleAt, spec.tenant)))
  }

  /** The path through GET: an existing task wins, a stale key is deleted, then SETNX with `id`. */
  function Resolve(k: Keyed, key: IdemKey, id: Id, spec: Spec): (Keyed, EnqueueResult) {
    var found := Lookup(k, key);
    if found.Some? && found.value in k.s.tasks then (k, Existing(k.s.tasks[found.value]))
    else
      var k1 := if found.Some? then k.(idem := k.idem - {key}) else k;
      var (k2, ok) := SetIfAbsent(k1, key, id);
      if ok then EnqueueSpec(k2, id, spec)
      else
        var again := Lookup(k2, key);
        if again.Some? && again.value in k2.s.tasks then (k2, Existing(k2.s.tasks[again.value])) else (k2, Conflict)
  }

  /** enqueueIdempotent. `maybe` is the filter's answer: false skips the GET and tries SETNX with
      `fastId` first; `slowId` is the id drawn later. */
  function EnqueueIdempotent(k: Keyed, key: IdemKey, maybe: bool, fastId: Id, slowId: Id,
                             spec: Spec): (Keyed, EnqueueResult) {
    if maybe then Resolve(k, key, slowId, spec)
    else
      var (k1, ok) := SetIfAbsent(k, key, fastId);
      if ok then EnqueueSpec(k1, fastId, spec) else Resolve(k1, key, slowId, spec)
  }

  /** Whatever the filter answers, right or wrong, the call does what it would do without a filter;
      the answer only decides which of the two fresh ids a new task gets. No call conflicts. */
  lemma FilterIndependent(k: Keyed, key: IdemKey, maybe: bool, fastId: Id, slowId: Id, spec: Spec)
    ensures var id := if !maybe && Lookup(k, key).None? then fastId else slowId;
            EnqueueIdempotent(k, key, maybe, fastId, slowId, spec) == Resolve(k, key, id, spec)
    ensures EnqueueIdempotent(k, key, maybe, fastId, slowId, spec).1 != Conflict
  {
  }

  /** The task a fresh enqueue makes of a request. */
  predicate Carries(t: Task, id: Id, spec: Spec, now: int) {
    && t.id == id && t.cmd == spec.cmd && t.payload == spec.payload && t.webhook == spec.webhook
    && t.tenant == spec.tenant && t.maxAttempts == spec.maxAttempts && t.attempts == 0
    && t.priority == (if spec.priority < 0 then 0 else if spec.priority > 9 then 9 else spec.priority)
    && t.status == Pending && t.worker == NO_WORKER && t.createdAt == now
    && t.loc == if spec.visibleAt.Some? && spec.visibleAt.value > now then DelayedZSet else PendingList
  }

  /** A task returned as fresh is stored as returned, carries the request, and is in exactly one queue
      position; its key stands for it for 24 hours; no other task changes. A task returned as existing is
      the stored one its key stands for, and nothing changes. */
  lemma KeyedAnswer(k: Keyed, key: IdemKey, maybe: bool, fastId: Id, slowId: Id, spec: Spec)
    requires Inv(k.s) && fastId !in k.s.tasks && slowId !in k.s.tasks && NoColon(spec.cmd)
    ensures var (k1, r) := EnqueueIdempotent(k, key, maybe, fastId, slowId, spec);
            && r != Conflict
            && (r.Existing? <==> key in k.idem && k.s.now < k.idem[key].expiry && k.idem[key].id in k.s.tasks)
            && (r.Existing? ==> k1 == k && r.task == k.s.tasks[k.idem[key].id])
            && (r.Fresh? ==>
                  && Inv(k1.s) && r.task.id in {fastId, slowId} && Carries(r.task, r.task.id, spec, k.s.now)
                  && StoredAt(k1.s, r.task.id, r.task, Where(r.task)) && Where(r.task) != Nowhere
                  && OthersKept(k.s, k1.s, r.task.id)
                  && k1.idem == k.idem[key := Entry(r.task.id, k.s.now + 86400)])
  {
    hide Inv, StoredAt, OthersKept, Enqueue, NewTask;
    FilterIndependent(k, key, maybe, fastId, slowId, spec);
    var id := if !maybe && Lookup(k, key).None? then fastId else slowId;
    SpecAnswer(k.s, id, spec);
  }

  lemma SpecAnswer(s: State, id: Id, spec: Spec)
    requires Inv(s) && id !in s.tasks && NoColon(spec.cmd)
    ensures var r := Enqueue(s, id, spec.cmd, spec.payload, spec.priority, spec.webhook,
                             spec.maxAttempts, spec.visibleAt, spec.tenant);
            var t := NewTask(s, id, spec.cmd, spec.payload, spec.priority, spec.webhook,
                             spec.maxAttempts, spec.visibleAt, spec.tenant);
            && Inv(r) && StoredAt(r, id, t, Where(t)) && Where(t) != Nowhere && OthersKept(s, r, id)
            && Carries(t, id, spec, s.now)
  {
    hide Inv, OthersKept;
    EnqueueAnswer(s, id, spec.cmd, spec.payload, spec.priority, spec.webhook,
                  spec.maxAttempts, spec.visibleAt, spec.tenant);
    EnqueueInv(s, id, spec.cmd, spec.payload, spec.priority, spec.webhook,
               spec.maxAttempts, spec.visibleAt, spec.tenant);
  }

  // ---------- one task per key, over runs ----------

  datatype KeyedCall =
    | RepoCall(call: Call)
    | KeyedEnqueue(key: IdemKey, maybe: bool, fastId: Id, slowId: Id, spec: Spec)

  /** A task created under a key, and when. */
  datatype Made = Made(key: IdemKey, id: Id, at: int)

  datatype History = History(k: Keyed, made: seq<Made>)

  predicate UnusedId(h: History, id: Id) {
    id !in h.k.s.tasks && forall i :: 0 <= i < |h.made| ==> h.made[i].id != id
  }

  /** As for repository calls; and ids are fresh also among those created under keys before. */
  ghost predicate PermittedKeyed(h: History, c: KeyedCall, maxDefault: int) {
    match c
    case RepoCall(call) =>
      Permitted(h.k.s, call, maxDefault) && (call.EnqueueCall? ==> UnusedId(h, call.id))
    case KeyedEnqueue(_, _, fastId, slowId, spec) =>
      UnusedId(h, fastId) && UnusedId(h, slowId) && NoColon(spec.cmd)
  }

  function StepKeyed(h: History, c: KeyedCall, maxDefault: int): History
    requires c.RepoCall? && c.call.ClaimCall? ==> |c.call.ws| == |c.call.cmds|
  {
    match c
    case RepoCall(call) => h.(k := h.k.(s := Step(h.k.s, call, maxDefault)))
    case KeyedEnqueue(key, maybe, fastId, slowId, spec) =>
      var (k1, r) := EnqueueIdempotent(h.k, key, maybe, fastId, slowId, spec);
      History(k1, if r.Fresh? then h.made + [Made(key, r.task.id, h.k.s.now)] else h.made)
  }

  /** Every stored task that was created under a key less than 24 hours ago is what its key stands for. */
  ghost predicate KeysPoint(h: History) {
    forall i :: 0 <= i < |h.made| ==>
      h.made[i].id in h.k.s.tasks && h.k.s.now < h.made[i].at + RETENTION ==>
        h.made[i].key in h.k.idem && h.k.idem[h.made[i].key] == Entry(h.made[i].id, h.made[i].at + RETENTION)
  }

  ghost predicate KeyedInv(h: History) {
    Inv(h.k.s) && KeysPoint(h)
  }

  lemma RepoCallKeeps(h: History, call: Call, maxDefault: int)
    requires KeyedInv(h) && PermittedKeyed(h, RepoCall(call), maxDefault)
    ensures KeyedInv(StepKeyed(h, RepoCall(call), maxDefault))
  {
    var s, r := h.k.s, Step(h.k.s, call, maxDefault);
    CallInv(s, call, maxDefault);
    StepPerforms(s, call, maxDefault);
    ClockGrows(s, ActionsOf(s, call, maxDefault));
    forall i | 0 <= i < |h.made| ensures h.made[i].id in r.tasks ==> h.made[i].id in s.tasks {
      var id := h.made[i].id;
      if id !in s.tasks {
        CallRecreates(s, call, maxDefault, id);
        StaysGone(s, ActionsOf(s, call, maxDefault), id);
      }
    }
  }

  lemma KeyedEnqueueKeeps(h: History, c: KeyedCall, maxDefault: int)
    requires KeyedInv(h) && c.KeyedEnqueue? && PermittedKeyed(h, c, maxDefault)
    ensures KeyedInv(StepKeyed(h, c, maxDefault))
  {
    FilterIndependent(h.k, c.key, c.maybe, c.fastId, c.slowId, c.spec);
    var id := if !c.maybe && Lookup(h.k, c.key).None? then c.fastId else c.slowId;
    var (k1, r) := Resolve(h.k, c.key, id, c.spec);
    if r.Fresh? {
      FreshKeeps(h, c.key, id, c.spec);
    }
  }

  lemma FreshKeeps(h: History, key: IdemKey, id: Id, spec: Spec)
    requires KeyedInv(h) && UnusedId(h, id) && NoColon(spec.cmd)
    requires Resolve(h.k, key, id, spec).1.Fresh?
    ensures KeyedInv(History(Resolve(h.k, key, id, spec).0, h.made + [Made(key, id, h.k.s.now)]))
    ensures Resolve(h.k, key, id, spec).1.task.id == id
  {
    hide Enqueue, Inv;
    var s := h.k.s;
    EnqueueInv(s, id, spec.cmd, spec.payload, spec.priority, spec.webhook, spec.maxAttempts,
               spec.visibleAt, spec.tenant);
    var k1 := Resolve(h.k, key, id, spec).0;
    var r := History(k1, h.made + [Made(key, id, s.now)]);
    assert k1.s.tasks == s.tasks[id := k1.s.tasks[id]];
    assert k1.idem[key] == Entry(id, s.now + RETENTION);
    forall i | 0 <= i < |r.made| && r.made[i].id in k1.s.tasks && k1.s.now < r.made[i].at + RETENTION
      ensures r.made[i].key in k1.idem && k1.idem[r.made[i].key] == Entry(r.made[i].id, r.made[i].at + RETENTION)
    {
      if i < |h.made| {
        assert r.made[i] == h.made[i];
      }
    }
  }

  ghost predicate PermittedKeyedAll(h: History, calls: seq<KeyedCall>, maxDefault: int)
    decreases |calls|
  {
    calls == [] ||
    (PermittedKeyed(h, calls[0], maxDefault)
     && PermittedKeyedAll(StepKeyed(h, calls[0], maxDefault), calls[1..], maxDefault))
  }

  ghost function RunKeyed(h: History, calls: seq<KeyedCall>, maxDefault: int): History
    requires PermittedKeyedAll(h, calls, maxDefault)
    decreases |calls|
  {
    if calls == [] then h else RunKeyed(StepKeyed(h, calls[0], maxDefault), calls[1..], maxDefault)
  }

  lemma {:induction false} RunKeyedKeeps(h: History, calls: seq<KeyedCall>, maxDefault: int)
    requires KeyedInv(h) && PermittedKeyedAll(h, calls, maxDefault)
    ensures KeyedInv(RunKeyed(h, calls, maxDefault))
    decreases |calls|
  {
    if calls != [] {
      StepKeyedKeeps(h, calls[0], maxDefault);
      RunKeyedKeeps(StepKeyed(h, calls[0], maxDefault), calls[1..], maxDefault);
    }
  }

  /** In any run of keyed enqueues (with any filter answers) and other calls, two tasks created under
      one key within the last 24 hours are not both stored. */
  lemma OneTaskPerKey(now: int, calls: seq<KeyedCall>, maxDefault: int, i: nat, j: nat)
    requires PermittedKeyedAll(History(Keyed(EmptyState(now), map[]), []), calls, maxDefault)
    requires var r := RunKeyed(History(Keyed(EmptyState(now), map[]), []), calls, maxDefault);
             && i < |r.made| && j < |r.made| && r.made[i].key == r.made[j].key
             && r.made[i].id in r.k.s.tasks && r.made[j].id in r.k.s.tasks
             && r.k.s.now < r.made[i].at + RETENTION && r.k.s.now < r.made[j].at + RETENTION
    ensures var r := RunKeyed(History(Keyed(EmptyState(now), map[]), []), calls, maxDefault);
            r.made[i].id == r.made[j].id
  {
    EmptyInv(now);
    RunKeyedKeeps(History(Keyed(EmptyState(now), map[]), []), calls, maxDefault);
  }

  /** While a task created under a key is stored and its key has not run out, every further enqueue
      under that key returns that task and changes nothing. */
  lemma RepeatReturnsExisting(now: int, calls: seq<KeyedCall>, maxDefault: int, i: nat,
                              maybe: bool, fastId: Id, slowId: Id, spec: Spec)
    requires PermittedKeyedAll(History(Keyed(EmptyState(now), map[]), []), calls, maxDefault)
    requires var r := RunKeyed(History(Keyed(EmptyState(now), map[]), []), calls, maxDefault);
             i < |r.made| && r.made[i].id in r.k.s.tasks && r.k.s.now < r.made[i].at + RETENTION
    ensures var r := RunKeyed(History(Keyed(EmptyState(now), map[]), []), calls, maxDefault);
            EnqueueIdempotent(r.k, r.made[i].key, maybe, fastId, slowId, spec)
              == (r.k, Existing(r.k.s.tasks[r.made[i].id]))
  {
    EmptyInv(now);
    RunKeyedKeeps(History(Keyed(EmptyState(now), map[]), []), calls, maxDefault);
  }

  /** Some cleanup among the calls lists `id`. */
  ghost predicate CleanedUp(calls: seq<KeyedCall>, id: Id) {
    exists i :: 0 <= i < |calls| && calls[i].RepoCall? && calls[i].call.CleanupCall? && id in calls[i].call.ids
  }

  lemma MadeStep(h: History, c: KeyedCall, maxDefault: int, i: nat)
    requires KeyedInv(h) && PermittedKeyed(h, c, maxDefault) && i < |StepKeyed(h, c, maxDefault).made|
    requires i < |h.made| ==> h.made[i].id in h.k.s.tasks
    ensures var r := StepKeyed(h, c, maxDefault);
            h.made <= r.made && (r.made[i].id in r.k.s.tasks || CleanedUp([c], r.made[i].id))
  {
    if c.RepoCall? {
      CallLoses(h.k.s, c.call, maxDefault, h.made[i].id);
      assert [c][0] == c;
    } else {
      KeyedAnswer(h.k, c.key, c.maybe, c.fastId, c.slowId, c.spec);
      if i < |h.made| {
        StillStored(h, c, maxDefault, h.made[i].id);
      }
    }
  }

  lemma StillStored(h: History, c: KeyedCall, maxDefault: int, id: Id)
    requires KeyedInv(h) && c.KeyedEnqueue? && PermittedKeyed(h, c, maxDefault) && id in h.k.s.tasks
    ensures id in StepKeyed(h, c, maxDefault).k.s.tasks
  {
    KeyedAnswer(h.k, c.key, c.maybe, c.fastId, c.slowId, c.spec);
    var (k1, r) := EnqueueIdempotent(h.k, c.key, c.maybe, c.fastId, c.slowId, c.spec);
    if r.Fresh? {
      assert id in h.k.s.tasks - {r.task.id};
    }
  }

  lemma {:induction false} MadeKept(h: History, calls: seq<KeyedCall>, maxDefault: int, i: nat)
    requires KeyedInv(h) && PermittedKeyedAll(h, calls, maxDefault) && i < |RunKeyed(h, calls, maxDefault).made|
    requires i < |h.made| ==> h.made[i].id in h.k.s.tasks || CleanedUp(calls, h.made[i].id)
    ensures var r := RunKeyed(h, calls, maxDefault);
            h.made <= r.made && (r.made[i].id in r.k.s.tasks || CleanedUp(calls, r.made[i].id))
    decreases |calls|
  {
    hide StepKeyed, KeyedInv;
    if calls != [] {
      var c, rest := calls[0], calls[1..];
      var h1 := StepKeyed(h, c, maxDefault);
      StepKeyedKeeps(h, c, maxDefault);
      MadeGrows(h1, rest, maxDefault);
      MadePrefix(h, c, maxDefault);
      var r := RunKeyed(h, calls, maxDefault);
      if i < |h1.made| && !CleanedUp(calls, r.made[i].id) {
        assert h1.made[i] == r.made[i];
        assert i < |h.made| ==> h.made[i] == h1.made[i];
        MadeStep(h, c, maxDefault, i);
        FirstCleans(calls, r.made[i].id);
        MadeKept(h1, rest, maxDefault, i);
        RestCleans(calls, r.made[i].id);
      } else if i >= |h1.made| {
        MadeKept(h1, rest, maxDefault, i);
        RestCleans(calls, r.made[i].id);
      }
    }
  }

  lemma FirstCleans(calls: seq<KeyedCall>, id: Id)
    requires calls != []
    ensures CleanedUp([calls[0]], id) ==> CleanedUp(calls, id)
  {
  }

  lemma RestCleans(calls: seq<KeyedCall>, id: Id)
    requires calls != []
    ensures CleanedUp(calls[1..], id) ==> CleanedUp(calls, id)
  {
    assert forall i :: 0 <= i < |calls[1..]| ==> calls[1..][i] == calls[i + 1];
  }

  lemma StepKeyedKeeps(h: History, c: KeyedCall, maxDefault: int)
    requires KeyedInv(h) && PermittedKeyed(h, c, maxDefault)
    ensures KeyedInv(StepKeyed(h, c, maxDefault))
  {
    if c.RepoCall? {
      RepoCallKeeps(h, c.call, maxDefault);
    } else {
      KeyedEnqueueKeeps(h, c, maxDefault);
    }
  }

  lemma MadePrefix(h: History, c: KeyedCall, maxDefault: int)
    requires PermittedKeyed(h, c, maxDefault)
    ensures h.made <= StepKeyed(h, c, maxDefault).made
  {
  }

  lemma {:induction false} MadeGrows(h: History, calls: seq<KeyedCall>, maxDefault: int)
    requires PermittedKeyedAll(h, calls, maxDefault)
    ensures h.made <= RunKeyed(h, calls, maxDefault).made
    decreases |calls|
  {
    hide StepKeyed;
    if calls != [] {
      MadePrefix(h, calls[0], maxDefault);
      MadeGrows(StepKeyed(h, calls[0], maxDefault), calls[1..], maxDefault);
    }
  }

  /** In any run of keyed enqueues and other calls, every task returned as fresh is stored until a cleanup
      lists it. */
  lemma FreshStaysStored(now: int, calls: seq<KeyedCall>, maxDefault: int, i: nat)
    requires PermittedKeyedAll(History(Keyed(EmptyState(now), map[]), []), calls, maxDefault)
    requires i < |RunKeyed(History(Keyed(EmptyState(now), map[]), []), calls, maxDefault).made|
    ensures var r := RunKeyed(History(Keyed(EmptyState(now), map[]), []), calls, maxDefault);
            r.made[i].id in r.k.s.tasks || CleanedUp(calls, r.made[i].id)
  {
    hide StepKeyed;
    EmptyInv(now);
    MadeKept(History(Keyed(EmptyState(now), map[]), []), calls, maxDefault, i);
  }

  /** Idempotency over runs: after an enqueue under a key made a task, and any calls, a further enqueue under
      that key, whatever the filter answers, returns the same task, as long as it is stored and the first
      enqueue is less than 24 hours ago. */
  lemma SameKeySameTask(h: History, first: KeyedCall, calls: seq<KeyedCall>, maxDefault: int,
                        maybe: bool, fastId: Id, slowId: Id, spec: Spec)
    requires KeyedInv(h) && first.KeyedEnqueue? && PermittedKeyedAll(h, [first] + calls, maxDefault)
    requires EnqueueIdempotent(h.k, first.key, first.maybe, first.fastId, first.slowId, first.spec).1.Fresh?
    requires var id := EnqueueIdempotent(h.k, first.key, first.maybe, first.fastId, first.slowId, first.spec).1.task.id;
             var r := RunKeyed(h, [first] + calls, maxDefault);
             id in r.k.s.tasks && r.k.s.now < h.k.s.now + 86400
    ensures var id := EnqueueIdempotent(h.k, first.key, first.maybe, first.fastId, first.slowId, first.spec).1.task.id;
            var r := RunKeyed(h, [first] + calls, maxDefault);
            EnqueueIdempotent(r.k, first.key, maybe, fastId, slowId, spec) == (r.k, Existing(r.k.s.tasks[id]))
  {
    hide Inv, PermittedKeyed;
    var id := EnqueueIdempotent(h.k, first.key, first.maybe, first.fastId, first.slowId, first.spec).1.task.id;
    var all := [first] + calls;
    assert all[0] == first && all[1..] == calls;
    var h1 := StepKeyed(h, first, maxDefault);
    assert h1.made == h.made + [Made(first.key, id, h.k.s.now)];
    RunKeyedKeeps(h, all, maxDefault);
    MadeGrows(h1, calls, maxDefault);
    var r := RunKeyed(h, all, maxDefault);
    assert r.made[|h.made|] == h1.made[|h.made|] == Made(first.key, id, h.k.s.now);
    LiveKeyReturns(r, |h.made|, maybe, fastId, slowId, spec);
  }

  lemma LiveKeyReturns(r: History, i: nat, maybe: bool, fastId: Id, slowId: Id, spec: Spec)
    requires KeysPoint(r) && i < |r.made| && r.made[i].id in r.k.s.tasks && r.k.s.now < r.made[i].at + RETENTION
    ensures EnqueueIdempotent(r.k, r.made[i].key, maybe, fastId, slowId, spec)
            == (r.k, Existing(r.k.s.tasks[r.made[i].id]))
  {
  }

  // ---------- as written ----------

  class KeyedRepository {
    const repo: Repository
    var idem: map<IdemKey, Entry>

    constructor (repo: Repository)
      ensures this.repo == repo && idem == map[]
    {
      this.repo := repo;
      idem := map[];
    }

    function Data(): Keyed
      reads this, repo
    {
      Keyed(repo.Data(), idem)
    }

    method SetNX(key: IdemKey, id: Id) returns (ok: bool)
      modifies this`idem
      ensures (Data(), ok) == SetIfAbsent(old(Data()), key, id)
    {
      ok := !(key in idem && repo.now < idem[key].expiry);
      if ok {
        idem := idem[key := Entry(id, repo.now + RETENTION)];
      }
    }

    method Create(id: Id, spec: Spec) returns (r: EnqueueResult)
      modifies repo
      ensures (Data(), r) == EnqueueSpec(old(Data()), id, spec)
      ensures r.Fresh? && Carries(r.task, id, spec, old(repo.now)) && repo.tasks == old(repo.tasks)[id := r.task]
    {
      var task, ready := repo.EnqueueWithId(id, spec.cmd, spec.payload, spec.priority,
                                            spec.webhook, spec.maxAttempts, spec.visibleAt, spec.tenant);
      r := Fresh(task);
    }

    method EnqueueOnce(key: IdemKey, maybe: bool, fastId: Id, slowId: Id, spec: Spec) returns (r: EnqueueResult)
      modifies this`idem, repo
      ensures (Data(), r) == EnqueueIdempotent(old(Data()), key, maybe, fastId, slowId, spec)
      ensures r.Fresh? ==>
                && Carries(r.task, r.task.id, spec, old(repo.now)) && r.task.id in {fastId, slowId}
                && repo.tasks == old(repo.tasks)[r.task.id := r.task]
                && idem == old(idem)[key := Entry(r.task.id, old(repo.now) + 86400)]
      ensures r.Existing? ==> Data() == old(Data()) && key in idem && idem[key].id in repo.tasks
                              && r.task == repo.tasks[idem[key].id]
    {
      hide EnqueueSpec, Carries;
      if !maybe {
        var first := SetNX(key, fastId);
        if first {
          r := Create(fastId, spec);
          return;
        }
      }
      if key in idem && repo.now < idem[key].expiry {
        if idem[key].id in repo.tasks {
          return Existing(repo.tasks[idem[key].id]);
        }
        idem := idem - {key};
      }
      var ok := SetNX(key, slowId);
      // With the call as one step the key cannot come back between GET and SETNX.
      assert ok;
      r := Create(slowId, spec);
    }
  }
}
