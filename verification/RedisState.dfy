/** The Redis data the queue keeps, as a value, and the Redis commands it is changed with.

    A list is written left to right: LPUSH adds in front, RPOP takes the last element. An absent
    key reads as an empty list, set or sorted set. */
module RedisState {
  import opened TaskTypes
  import opened Sequences

  /** The queue keys: pending lists, in-progress sets, delayed sorted sets, dead-letter sets. */
  datatype Queues = Queues(
    pending: map<(Base, int), seq<Id>>,
    inprog: map<Base, set<Id>>,
    delayed: map<Base, map<Id, int>>,
    dlq: map<Base, set<Id>>)

  datatype State = State(
    now: int,
    q: Queues,
    tasks: map<Id, Task>,
    leases: map<Id, Lease>,
    ttl: map<Id, int>,
    results: map<Id, ResultRecord>)

  function Pend(q: Queues, b: Base, p: int): seq<Id> {
    if (b, p) in q.pending then q.pending[(b, p)] else []
  }

  function Inprog(q: Queues, b: Base): set<Id> {
    if b in q.inprog then q.inprog[b] else {}
  }

  function Delayed(q: Queues, b: Base): map<Id, int> {
    if b in q.delayed then q.delayed[b] else map[]
  }

  function Dlq(q: Queues, b: Base): set<Id> {
    if b in q.dlq then q.dlq[b] else {}
  }

  /** Is `id` stored at place `pl`? */
  predicate In(q: Queues, id: Id, pl: Place) {
    match pl
    case PendingAt(b, p) => id in Pend(q, b, p)
    case DelayedAt(b) => id in Delayed(q, b)
    case InprogAt(b) => id in Inprog(q, b)
    case DlqAt(b) => id in Dlq(q, b)
    case Nowhere => false
  }

  lemma ConsNoRepeats(x: Id, q: seq<Id>)
    requires NoRepeats(q) && x !in q
    ensures NoRepeats([x] + q)
  {
    var r := [x] + q;
    forall i, j | 0 <= i < j < |r| ensures r[i] != r[j] {
      assert r[j] == q[j - 1];
      assert i > 0 ==> r[i] == q[i - 1];
    }
  }

  ghost predicate ListsDistinct(q: Queues) {
    forall b, p :: NoRepeats(Pend(q, b, p))
  }

  // ---------- queue commands ----------

  function LPush(q: Queues, b: Base, p: int, id: Id): (r: Queues)
    ensures Pend(r, b, p) == [id] + Pend(q, b, p)
    ensures forall x, pl {:trigger In(r, x, pl)} :: In(r, x, pl) <==> (x == id && pl == PendingAt(b, p)) || In(q, x, pl)
  {
    q.(pending := q.pending[(b, p) := [id] + Pend(q, b, p)])
  }

  lemma LPushDistinct(q: Queues, b: Base, p: int, id: Id)
    requires ListsDistinct(q) && id !in Pend(q, b, p)
    ensures ListsDistinct(LPush(q, b, p, id))
  {
    ConsNoRepeats(id, Pend(q, b, p));
    var r := LPush(q, b, p, id);
    forall b1, p1 ensures NoRepeats(Pend(r, b1, p1)) {
      assert (b1, p1) != (b, p) ==> Pend(r, b1, p1) == Pend(q, b1, p1);
    }
  }

  function RPop(q: Queues, b: Base, p: int): (r: Queues)
    requires Pend(q, b, p) != []
    ensures Pend(r, b, p) == Pend(q, b, p)[..|Pend(q, b, p)| - 1]
    ensures forall x, pl {:trigger In(r, x, pl)} :: pl != PendingAt(b, p) ==> (In(r, x, pl) <==> In(q, x, pl))
  {
    q.(pending := q.pending[(b, p) := Pend(q, b, p)[..|Pend(q, b, p)| - 1]])
  }

  function Without(l: seq<Id>, id: Id): (r: seq<Id>)
    ensures forall x :: x in r <==> x in l && x != id
  {
    if l == [] then [] else if l[0] == id then Without(l[1..], id) else [l[0]] + Without(l[1..], id)
  }

  lemma {:induction false} WithoutNoRepeats(l: seq<Id>, id: Id)
    requires NoRepeats(l)
    ensures NoRepeats(Without(l, id))
  {
    if l != [] {
      assert forall x :: x in l[1..] ==> x != l[0];
      WithoutNoRepeats(l[1..], id);
      if l[0] != id {
        ConsNoRepeats(l[0], Without(l[1..], id));
      }
    }
  }

  /** LREM key 0 id: every occurrence goes. */
  function LRem(q: Queues, b: Base, p: int, id: Id): (r: Queues)
    ensures Pend(r, b, p) == Without(Pend(q, b, p), id)
    ensures forall x, pl {:trigger In(r, x, pl)} ::
              In(r, x, pl) <==> In(q, x, pl) && !(x == id && pl == PendingAt(b, p))
  {
    q.(pending := q.pending[(b, p) := Without(Pend(q, b, p), id)])
  }

  lemma LRemDistinct(q: Queues, b: Base, p: int, id: Id)
    requires ListsDistinct(q)
    ensures ListsDistinct(LRem(q, b, p, id))
  {
    WithoutNoRepeats(Pend(q, b, p), id);
    var r := LRem(q, b, p, id);
    forall b1, p1 ensures NoRepeats(Pend(r, b1, p1)) {
      assert (b1, p1) != (b, p) ==> Pend(r, b1, p1) == Pend(q, b1, p1);
    }
  }

  function SAddInprog(q: Queues, b: Base, id: Id): (r: Queues)
    ensures r.pending == q.pending
    ensures forall x, pl {:trigger In(r, x, pl)} :: In(r, x, pl) <==> (x == id && pl == InprogAt(b)) || In(q, x, pl)
  {
    q.(inprog := q.inprog[b := Inprog(q, b) + {id}])
  }

  function SRemInprog(q: Queues, b: Base, id: Id): (r: Queues)
    ensures r.pending == q.pending
    ensures forall x, pl {:trigger In(r, x, pl)} :: In(r, x, pl) <==> In(q, x, pl) && !(x == id && pl == InprogAt(b))
  {
    q.(inprog := q.inprog[b := Inprog(q, b) - {id}])
  }

  function ZAddDelayed(q: Queues, b: Base, id: Id, score: int): (r: Queues)
    ensures r.pending == q.pending
    ensures forall x, pl {:trigger In(r, x, pl)} :: In(r, x, pl) <==> (x == id && pl == DelayedAt(b)) || In(q, x, pl)
  {
    q.(delayed := q.delayed[b := Delayed(q, b)[id := score]])
  }

  function ZRemDelayed(q: Queues, b: Base, id: Id): (r: Queues)
    ensures r.pending == q.pending
    ensures forall x, pl {:trigger In(r, x, pl)} :: In(r, x, pl) <==> In(q, x, pl) && !(x == id && pl == DelayedAt(b))
  {
    q.(delayed := q.delayed[b := Delayed(q, b) - {id}])
  }

  function SAddDlq(q: Queues, b: Base, id: Id): (r: Queues)
    ensures r.pending == q.pending
    ensures forall x, pl {:trigger In(r, x, pl)} :: In(r, x, pl) <==> (x == id && pl == DlqAt(b)) || In(q, x, pl)
  {
    q.(dlq := q.dlq[b := Dlq(q, b) + {id}])
  }

  function SRemDlq(q: Queues, b: Base, id: Id): (r: Queues)
    ensures r.pending == q.pending
    ensures forall x, pl {:trigger In(r, x, pl)} :: In(r, x, pl) <==> In(q, x, pl) && !(x == id && pl == DlqAt(b))
  {
    q.(dlq := q.dlq[b := Dlq(q, b) - {id}])
  }

  // ---------- leases and records ----------

  /** A lease key that Redis has not expired yet. */
  predicate LeaseLive(s: State, id: Id) {
    id in s.leases && s.now < s.leases[id].expiry
  }

  /** EXPIRE lease seconds: no effect on an absent or already expired key; a duration that is not
      positive deletes the key. */
  function ExpireLease(s: State, id: Id, seconds: int): map<Id, Lease> {
    if !LeaseLive(s, id) then s.leases
    else if seconds <= 0 then s.leases - {id}
    else s.leases[id := s.leases[id].(expiry := s.now + seconds)]
  }

  /** Write the record of `id` and push its entry of the retention index 24 hours ahead. */
  function Touch(s: State, id: Id, t: Task): State {
    s.(tasks := s.tasks[id := t], ttl := s.ttl[id := s.now + RETENTION])
  }
}
