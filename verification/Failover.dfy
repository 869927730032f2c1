/** Sequence numbers under replication: every replica has a counter of its own, seeded when it opens
    its store. Only the replica that leads takes numbers from its counter; entries it replicates do not
    move the counters of the others. */
module Failover {
  import opened Bytes
  import opened KeyValue
  import opened Keys

  /** A pending task of one queue and priority. */
  datatype Entry = Entry(seqNo: nat, id: Key)

  /** The counter of every replica, and the pending entries in the order they were committed. */
  datatype Cluster = Cluster(counters: seq<nat>, pend: seq<Entry>)

  ghost predicate Valid(c: Cluster) {
    && (forall i :: 0 <= i < |c.counters| ==> c.counters[i] <= MAX64)
    && (forall i :: 0 <= i < |c.pend| ==> c.pend[i].seqNo <= MAX64)
  }

  /** An enqueue led by a replica, here or into another queue or priority; the claim of an entry; the
      opening of a replica, which seeds its counter with the largest number it reads: those of the
      first `applied` entries, and `other` from elsewhere in its store. */
  datatype Event =
    | Enqueue(at: nat, id: Key)
    | Elsewhere(at: nat)
    | Claim(entry: nat)
    | Open(at: nat, applied: nat, other: nat)

  predicate Enabled(c: Cluster, e: Event) {
    match e
    case Enqueue(at, _) => at < |c.counters|
    case Elsewhere(at) => at < |c.counters|
    case Claim(entry) => entry < |c.pend|
    case Open(at, applied, other) => at < |c.counters| && applied <= |c.pend| && other <= MAX64
  }

  function Next(counter: nat): nat { (counter + 1) % (MAX64 + 1) }

  /** The largest number among `es`, at least `least`. */
  function Largest(es: seq<Entry>, least: nat): (r: nat)
    ensures r >= least && forall i :: 0 <= i < |es| ==> es[i].seqNo <= r
    ensures r == least || exists i :: 0 <= i < |es| && es[i].seqNo == r
  {
    if es == [] then least
    else
      var r := Largest(es[1..], least);
      assert forall i :: 1 <= i < |es| ==> es[i] == es[1..][i - 1];
      if es[0].seqNo > r then es[0].seqNo else r
  }

  function Step(c: Cluster, e: Event): Cluster
    requires Enabled(c, e)
  {
    match e
    case Enqueue(at, id) =>
      var n := Next(c.counters[at]);
      Cluster(c.counters[at := n], c.pend + [Entry(n, id)])
    case Elsewhere(at) => c.(counters := c.counters[at := Next(c.counters[at])])
    case Claim(entry) => c.(pend := c.pend[..entry] + c.pend[entry + 1..])
    case Open(at, applied, other) => c.(counters := c.counters[at := Largest(c.pend[..applied], other)])
  }

  ghost predicate EnabledAll(c: Cluster, es: seq<Event>)
    decreases |es|
  {
    es == [] || (Enabled(c, es[0]) && EnabledAll(Step(c, es[0]), es[1..]))
  }

  ghost function Run(c: Cluster, es: seq<Event>): Cluster
    requires EnabledAll(c, es)
    decreases |es|
  {
    if es == [] then c else Run(Step(c, es[0]), es[1..])
  }

  lemma StepValid(c: Cluster, e: Event)
    requires Valid(c) && Enabled(c, e)
    ensures Valid(Step(c, e))
  {
    if e.Open? {
      var r := Largest(c.pend[..e.applied], e.other);
      assert forall i :: 0 <= i < e.applied ==> c.pend[..e.applied][i] == c.pend[i];
    }
  }

  // ---------- first in, first out ----------

  /** A queue and a priority of it. */
  datatype Lane = Lane(cmd: Key, tenant: Key, prio: int)

  function KeyOf(l: Lane, e: Entry): Key
    requires e.seqNo <= MAX64
  {
    KeyPending(l.cmd, l.tenant, l.prio, e.seqNo, e.id)
  }

  /** The stored keys sort in the order in which they were committed. */
  ghost predicate Fifo(l: Lane, c: Cluster)
    requires Valid(c)
  {
    forall i, j :: 0 <= i < j < |c.pend| ==> Less(KeyOf(l, c.pend[i]), KeyOf(l, c.pend[j]))
  }

  /** The counter of a replica is at least every stored number, and the next number does not wrap. */
  ghost predicate Covers(c: Cluster, at: nat) {
    at < |c.counters| && forall i :: 0 <= i < |c.pend| ==> c.pend[i].seqNo <= c.counters[at] < MAX64
  }

  lemma KeysByNumber(l: Lane, a: Entry, b: Entry)
    requires a.seqNo <= MAX64 && b.seqNo <= MAX64
    ensures Less(KeyOf(l, a), KeyOf(l, b)) <==> a.seqNo < b.seqNo || (a.seqNo == b.seqNo && Less(a.id, b.id))
  {
    PendingOrder(l.cmd, l.tenant, l.prio, a.seqNo, a.id, l.prio, b.seqNo, b.id);
  }

  /** The new entry of an enqueue sorts behind every stored one. */
  ghost predicate Behind(l: Lane, c: Cluster, at: nat, id: Key)
    requires Valid(c) && at < |c.counters|
  {
    forall i :: 0 <= i < |c.pend| ==> Less(KeyOf(l, c.pend[i]), KeyOf(l, Entry(Next(c.counters[at]), id)))
  }

  /** Whatever its id, a task enqueued by a replica sorts behind every stored one exactly when that
      replica's counter is at least every stored number. */
  lemma BehindIff(l: Lane, c: Cluster, at: nat)
    requires Valid(c) && at < |c.counters|
    ensures (forall id :: Behind(l, c, at, id)) <==> Covers(c, at)
  {
    hide KeyOf, Less;
    var n := Next(c.counters[at]);
    if Covers(c, at) {
      forall id, i | 0 <= i < |c.pend| ensures Less(KeyOf(l, c.pend[i]), KeyOf(l, Entry(n, id))) {
        KeysByNumber(l, c.pend[i], Entry(n, id));
      }
    } else {
      var i :| 0 <= i < |c.pend| && !(c.pend[i].seqNo <= c.counters[at] < MAX64);
      KeysByNumber(l, c.pend[i], Entry(n, []));
      NothingBelowEmpty(c.pend[i].id);
      assert !Behind(l, c, at, []);
    }
  }

  lemma NothingBelowEmpty(k: Key)
    ensures !Less(k, [])
  {
  }

  /** An event keeps the order unless it is an enqueue by a replica whose counter is behind. */
  lemma StepFifo(l: Lane, c: Cluster, e: Event)
    requires Valid(c) && Fifo(l, c) && Enabled(c, e) && (e.Enqueue? ==> Covers(c, e.at))
    ensures Valid(Step(c, e)) && Fifo(l, Step(c, e))
  {
    hide KeyOf, Less;
    StepValid(c, e);
    if e.Enqueue? {
      BehindIff(l, c, e.at);
      assert Behind(l, c, e.at, e.id);
    }
  }

  /** Every enqueue is led by a replica whose counter covers what is stored. */
  ghost predicate CoveredAll(c: Cluster, es: seq<Event>)
    requires EnabledAll(c, es)
    decreases |es|
  {
    es == [] || ((es[0].Enqueue? ==> Covers(c, es[0].at)) && CoveredAll(Step(c, es[0]), es[1..]))
  }

  lemma {:induction false} RunFifo(l: Lane, c: Cluster, es: seq<Event>)
    requires Valid(c) && Fifo(l, c) && EnabledAll(c, es) && CoveredAll(c, es)
    ensures Valid(Run(c, es)) && Fifo(l, Run(c, es))
    decreases |es|
  {
    hide Fifo, Valid, Step, Covers;
    if es != [] {
      StepFifo(l, c, es[0]);
      RunFifo(l, Step(c, es[0]), es[1..]);
    }
  }

  // ---------- one leader, and a change of leader ----------

  /** Only `at` enqueues, and it stays open. */
  predicate Leads(e: Event, at: nat) {
    match e
    case Enqueue(i, _) => i == at
    case Open(i, _, _) => i != at
    case Elsewhere(_) => true
    case Claim(_) => true
  }

  lemma LeadStep(c: Cluster, e: Event, at: nat)
    requires Covers(c, at) && Enabled(c, e) && Leads(e, at) && c.counters[at] < MAX64
    ensures var d := Step(c, e); |d.counters| == |c.counters| && c.counters[at] <= d.counters[at] <= c.counters[at] + 1
    ensures var d := Step(c, e); d.counters[at] < MAX64 ==> Covers(d, at)
  {
  }

  /** While one replica leads, and its counter covered the store when it began, every number it hands
      out is in order, until its counter is used up. */
  lemma {:induction false} LeaderCovers(c: Cluster, es: seq<Event>, at: nat)
    requires Covers(c, at) && c.counters[at] + |es| < MAX64 && EnabledAll(c, es)
    requires forall i :: 0 <= i < |es| ==> Leads(es[i], at)
    ensures CoveredAll(c, es) && Covers(Run(c, es), at)
    decreases |es|
  {
    if es != [] {
      assert Leads(es[0], at);
      LeadStep(c, es[0], at);
      assert forall i :: 0 <= i < |es[1..]| ==> es[1..][i] == es[i + 1];
      LeaderCovers(Step(c, es[0]), es[1..], at);
    }
  }

  /** A failover keeps the order if the new leader opens its store after it has applied every entry of
      the old one: the old leader's term, the opening, and the new leader's term are in order. */
  lemma FailoverFifo(l: Lane, c: Cluster, es: seq<Event>, first: nat, at: nat, other: nat, more: seq<Event>)
    requires Valid(c) && Fifo(l, c) && Covers(c, first) && c.counters[first] + |es| < MAX64
    requires EnabledAll(c, es) && forall i :: 0 <= i < |es| ==> Leads(es[i], first)
    requires at < |Run(c, es).counters| && other <= MAX64
    requires Largest(Run(c, es).pend, other) + |more| < MAX64
    requires EnabledAll(Step(Run(c, es), Open(at, |Run(c, es).pend|, other)), more)
    requires forall i :: 0 <= i < |more| ==> Leads(more[i], at)
    ensures var d := Run(Step(Run(c, es), Open(at, |Run(c, es).pend|, other)), more); Valid(d) && Fifo(l, d)
  {
    hide Fifo, Valid;
    LeaderCovers(c, es, first);
    RunFifo(l, c, es);
    var d := Run(c, es);
    var e := Open(at, |d.pend|, other);
    assert d.pend[..|d.pend|] == d.pend;
    StepFifo(l, d, e);
    LeaderCovers(Step(d, e), more, at);
    RunFifo(l, Step(d, e), more);
  }

  // ---------- a failover that overtakes ----------

  const EMPTY := Cluster([0, 0], [])

  /** Tasks enqueued one after the other by one replica. */
  function Burst(at: nat, ids: seq<Key>): seq<Event> {
    if ids == [] then [] else [Enqueue(at, ids[0])] + Burst(at, ids[1..])
  }

  /** The entries of a burst: the numbers after `n`. */
  function Numbered(n: nat, ids: seq<Key>): (es: seq<Entry>)
    ensures |es| == |ids| && forall i :: 0 <= i < |ids| ==> es[i] == Entry(n + i + 1, ids[i])
    decreases |ids|
  {
    if ids == [] then [] else [Entry(n + 1, ids[0])] + Numbered(n + 1, ids[1..])
  }

  lemma EnqueueStep(c: Cluster, at: nat, id: Key)
    requires at < |c.counters| && c.counters[at] < MAX64
    ensures var n := c.counters[at] + 1;
            Step(c, Enqueue(at, id)) == Cluster(c.counters[at := n], c.pend + [Entry(n, id)])
  {
  }

  /** A burst of a replica takes the next numbers of its own counter, whatever is stored. */
  lemma {:induction false} BurstNumbers(c: Cluster, at: nat, ids: seq<Key>)
    requires at < |c.counters| && c.counters[at] + |ids| <= MAX64
    ensures EnabledAll(c, Burst(at, ids))
    ensures Run(c, Burst(at, ids))
            == Cluster(c.counters[at := c.counters[at] + |ids|], c.pend + Numbered(c.counters[at], ids))
    decreases |ids|
  {
    hide Step;
    var es, n := Burst(at, ids), c.counters[at];
    if ids == [] {
      assert c.pend + [] == c.pend;
    } else {
      EnqueueStep(c, at, ids[0]);
      assert es[0] == Enqueue(at, ids[0]) && es[1..] == Burst(at, ids[1..]);
      BurstNumbers(Step(c, es[0]), at, ids[1..]);
      assert c.pend + [Entry(n + 1, ids[0])] + Numbered(n + 1, ids[1..]) == c.pend + Numbered(n, ids);
    }
  }

  /** Two replicas open on an empty store, the first enqueues `n` tasks and hands over: each of the
      second one's first `n` - 1 tasks overtakes the last task of the first. */
  lemma FailoverOvertakes(l: Lane, a: seq<Key>, b: seq<Key>)
    requires 1 <= |b| < |a| <= MAX64
    ensures EnabledAll(EMPTY, Burst(0, a)) && EnabledAll(Run(EMPTY, Burst(0, a)), Burst(1, b))
    ensures var pend := Run(Run(EMPTY, Burst(0, a)), Burst(1, b)).pend;
            && |pend| == |a| + |b| && pend[|a| - 1] == Entry(|a|, a[|a| - 1])
            && pend[|a| + |b| - 1] == Entry(|b|, b[|b| - 1])
            && Less(KeyOf(l, pend[|a| + |b| - 1]), KeyOf(l, pend[|a| - 1]))
  {
    hide KeyOf, Less;
    BurstNumbers(EMPTY, 0, a);
    BurstNumbers(Run(EMPTY, Burst(0, a)), 1, b);
    KeysByNumber(l, Entry(|b|, b[|b| - 1]), Entry(|a|, a[|a| - 1]));
  }
}
