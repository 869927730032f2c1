/** Tasks, their statuses and places, and the Redis keys of the queues.

    Strings stand for the JSON strings of the original; times are whole seconds. */
module TaskTypes {
  import opened Wrappers

  /** Task ids are only ever compared. */
  type Id = nat

  /** Worker ids are only ever compared; `NO_WORKER` is the empty string. */
  type Worker = nat
  const NO_WORKER: Worker := 0

  type Command = string
  type Tenant = string

  /** The part of a queue key that names command and tenant (default shard). */
  datatype Base = Key(name: string)

  const MIN_PRIORITY := 0
  const MAX_PRIORITY := 9

  /** taskRetention, 24 hours. */
  const RETENTION := 86400

  datatype Status = Pending | InProgress | Completed | Failed

  /** The lastKnownLocation hint of a task; `Unset` is the empty string. */
  datatype Location = Unset | PendingList | DelayedZSet | InprogSet | DlqSet | NoLocation

  datatype Task = Task(
    id: Id,
    cmd: Command,
    payload: string,
    priority: int,
    webhook: string,
    status: Status,
    loc: Location,
    worker: Worker,
    leaseUntil: Option<int>,
    attempts: int,
    maxAttempts: int,
    error: string,
    resultKey: string,
    tenant: Tenant,
    createdAt: int,
    updatedAt: int)

  /** A lease key: its value is the worker, and Redis drops it when the clock reaches `expiry`. */
  datatype Lease = Lease(worker: Worker, expiry: int)

  datatype ResultRecord = ResultRecord(taskId: Id, status: Status, result: Option<string>,
                                       error: string, completedAt: int)

  function NormalizePriority(p: int): (r: int)
    ensures MIN_PRIORITY <= r <= MAX_PRIORITY
    ensures MIN_PRIORITY <= p <= MAX_PRIORITY ==> r == p
  {
    if p < MIN_PRIORITY then MIN_PRIORITY else if p > MAX_PRIORITY then MAX_PRIORITY else p
  }

  function LowerChar(c: char): char {
    if 'A' <= c <= 'Z' then ((c as int) + 32) as char else c
  }

  function Lower(s: string): (r: string)
    ensures |r| == |s|
    ensures forall i :: 0 <= i < |s| ==> r[i] == LowerChar(s[i])
  {
    if s == [] then [] else [LowerChar(s[0])] + Lower(s[1..])
  }

  function TenantPart(tenant: Tenant): string {
    if tenant == "" then "" else ":" + tenant
  }

  /** buildQueueKey without its queue-type suffix, on the default shard. */
  function QueueBase(cmd: Command, tenant: Tenant): Base {
    Key("codeq:q:" + (Lower(cmd) + TenantPart(tenant)))
  }

  function HomeBase(t: Task): Base {
    QueueBase(t.cmd, t.tenant)
  }

  /** A place a task id can be stored at. The four kinds of queue key end in different
      suffixes, so keys of different kinds never collide. */
  datatype Place =
    | PendingAt(base: Base, prio: int)
    | DelayedAt(base: Base)
    | InprogAt(base: Base)
    | DlqAt(base: Base)
    | Nowhere

  /** The place a task's own record says it is at. */
  function Where(t: Task): Place {
    match t.loc
    case PendingList => PendingAt(HomeBase(t), NormalizePriority(t.priority))
    case DelayedZSet => DelayedAt(HomeBase(t))
    case InprogSet => InprogAt(HomeBase(t))
    case DlqSet => DlqAt(HomeBase(t))
    case NoLocation => Nowhere
    case Unset => Nowhere
  }

  predicate NoColon(s: string) {
    ':' !in s
  }

  /** Commands without a colon name their queues unambiguously: two queue keys agree only when
      the tenants agree and the commands agree up to letter case. */
  lemma QueueBaseSeparates(c1: Command, t1: Tenant, c2: Command, t2: Tenant)
    requires NoColon(c1) && NoColon(c2)
    requires QueueBase(c1, t1) == QueueBase(c2, t2)
    ensures Lower(c1) == Lower(c2) && t1 == t2
  {
    SamePrefix("codeq:q:", Lower(c1) + TenantPart(t1), Lower(c2) + TenantPart(t2));
    SplitAtColon(Lower(c1), TenantPart(t1), Lower(c2), TenantPart(t2));
    assert t1 != "" ==> TenantPart(t1)[1..] == t1;
    assert t2 != "" ==> TenantPart(t2)[1..] == t2;
  }

  /** Two characters that differ at most in the case of an ASCII letter. */
  predicate SameButCase(a: char, b: char) {
    || a == b
    || ('A' <= a <= 'Z' && b as int == a as int + 32)
    || ('A' <= b <= 'Z' && a as int == b as int + 32)
  }

  lemma LowerIff(c1: Command, c2: Command)
    ensures Lower(c1) == Lower(c2) <==> |c1| == |c2| && forall i :: 0 <= i < |c1| ==> SameButCase(c1[i], c2[i])
  {
    hide Lower, LowerChar, SameButCase;
    forall a, b ensures SameButCase(a, b) <==> LowerChar(a) == LowerChar(b) {
      LowerCharIff(a, b);
    }
    if Lower(c1) == Lower(c2) {
      forall i | 0 <= i < |c1| ensures SameButCase(c1[i], c2[i]) {
        assert Lower(c1)[i] == Lower(c2)[i];
      }
    }
  }

  lemma LowerCharIff(a: char, b: char)
    ensures SameButCase(a, b) <==> LowerChar(a) == LowerChar(b)
  {
  }

  /** The queue keys of two commands without a colon are the same exactly when the tenants are and the
      commands differ at most in the case of ASCII letters. */
  lemma QueueBaseIff(c1: Command, t1: Tenant, c2: Command, t2: Tenant)
    requires NoColon(c1) && NoColon(c2)
    ensures QueueBase(c1, t1) == QueueBase(c2, t2) <==>
            t1 == t2 && |c1| == |c2| && forall i :: 0 <= i < |c1| ==> SameButCase(c1[i], c2[i])
  {
    hide Lower, LowerChar, SameButCase;
    LowerIff(c1, c2);
    if QueueBase(c1, t1) == QueueBase(c2, t2) {
      QueueBaseSeparates(c1, t1, c2, t2);
    }
  }

  lemma SamePrefix(p: string, a: string, b: string)
    requires p + a == p + b
    ensures a == b
  {
    assert (p + a)[|p|..] == a && (p + b)[|p|..] == b;
  }

  /** Two equal strings, each a colon-free head before a tail that is empty or starts with a colon. */
  lemma {:induction false} SplitAtColon(h1: string, t1: string, h2: string, t2: string)
    requires NoColon(h1) && NoColon(h2)
    requires t1 == "" || t1[0] == ':'
    requires t2 == "" || t2[0] == ':'
    requires h1 + t1 == h2 + t2
    ensures h1 == h2 && t1 == t2
  {
    assert h1 == "" ==> h1 + t1 == t1;
    assert h2 == "" ==> h2 + t2 == t2;
    assert h1 != "" ==> (h1 + t1)[0] == h1[0] && (h1 + t1)[1..] == h1[1..] + t1;
    assert h2 != "" ==> (h2 + t2)[0] == h2[0] && (h2 + t2)[1..] == h2[1..] + t2;
    if h1 != "" && h2 != "" {
      SplitAtColon(h1[1..], t1, h2[1..], t2);
    }
  }
}
