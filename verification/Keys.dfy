/** The key layout of the embedded backend: queues and indexes are ranges of ordered keys. */
module Keys {
  import opened Bytes
  import opened KeyValue
  import opened Wrappers

  const SLASH: Byte := 47

  const QUEUE: Key := [99, 111, 100, 101, 113, 47, 113, 47]                 // "codeq/q/"
  const PENDING: Key := [47, 112, 101, 110, 100, 105, 110, 103, 47]         // "/pending/"
  const INPROG: Key := [47, 105, 110, 112, 114, 111, 103, 47]               // "/inprog/"
  const DELAYED: Key := [47, 100, 101, 108, 97, 121, 101, 100, 47]          // "/delayed/"
  const DLQ: Key := [47, 100, 108, 113, 47]                                 // "/dlq/"
  const EMPTY_TENANT: Key := [95]                                           // "_"

  function TenantSeg(tenant: Key): Key {
    if tenant == [] then EMPTY_TENANT else tenant
  }

  /** Lower case of an ASCII command. */
  function CmdSeg(cmd: Key): (r: Key)
    ensures |r| == |cmd|
  {
    seq(|cmd|, i requires 0 <= i < |cmd| => if 65 <= cmd[i] <= 90 then cmd[i] + 32 else cmd[i])
  }

  /** Commands share a segment exactly when they differ at most in the case of ASCII letters. */
  lemma CmdSegIff(c: Key, d: Key)
    ensures CmdSeg(c) == CmdSeg(d) <==>
            |c| == |d| && forall i :: 0 <= i < |c| ==>
              || c[i] == d[i]
              || (65 <= c[i] <= 90 && d[i] == c[i] + 32)
              || (65 <= d[i] <= 90 && c[i] == d[i] + 32)
  {
    if CmdSeg(c) == CmdSeg(d) {
      forall i | 0 <= i < |c|
        ensures c[i] == d[i] || (65 <= c[i] <= 90 && d[i] == c[i] + 32) || (65 <= d[i] <= 90 && c[i] == d[i] + 32)
      {
        assert CmdSeg(c)[i] == CmdSeg(d)[i];
      }
    }
  }

  function QueueBase(cmd: Key, tenant: Key): Key {
    QUEUE + CmdSeg(cmd) + [SLASH] + TenantSeg(tenant)
  }

  // ---------- prefixes and their upper bounds ----------

  /** The least key above every key that starts with `p`, if there is one. */
  function Upper(p: Key): (r: Option<Key>)
    ensures r.None? <==> forall i :: 0 <= i < |p| ==> p[i] == 255
  {
    if p == [] then None
    else
      var n := |p| - 1;
      assert forall i :: 0 <= i < n ==> p[..n][i] == p[i];
      if p[n] < 255 then Some(p[..n] + [p[n] + 1]) else Upper(p[..n])
  }

  method PrefixUpper(p: Key) returns (u: Option<Key>)
    ensures u == Upper(p)
  {
    var a := new Byte[|p|](i requires 0 <= i < |p| => p[i]);
    var i := |p| - 1;
    assert p[..|p|] == p;
    while i >= 0
      invariant -1 <= i < |p|
      invariant a[..] == p
      invariant Upper(p) == Upper(p[..i + 1])
    {
      assert p[..i + 1][..i] == p[..i];
      if a[i] < 255 {
        a[i] := a[i] + 1;
        assert a[..i + 1] == p[..i] + [p[i] + 1];
        return Some(a[..i + 1]);
      }
      i := i - 1;
    }
    return None;
  }

  /** The range of a prefix holds exactly the keys that start with it, also when the
      upper bound does not exist. */
  lemma {:induction false} PrefixRangeExact(p: Key, k: Key)
    ensures InRange(k, p, Upper(p)) <==> IsPrefix(p, k)
  {
    if p == [] {
    } else if k == [] {
    } else if k[0] != p[0] {
      HeadDecides(p, k);
    } else {
      PrefixRangeExact(p[1..], k[1..]);
      UpperTail(p);
      assert IsPrefix(p, k) <==> IsPrefix(p[1..], k[1..]) by { PrefixTail(p, k); }
    }
  }

  lemma PrefixTail(p: Key, k: Key)
    requires p != [] && k != [] && p[0] == k[0]
    ensures IsPrefix(p, k) <==> IsPrefix(p[1..], k[1..])
  {
    if IsPrefix(p[1..], k[1..]) {
      assert forall i :: 1 <= i < |p| ==> p[i] == p[1..][i - 1] && k[i] == k[1..][i - 1];
    }
  }

  /** The upper bound of a prefix keeps its first byte unless everything after it is 0xff. */
  lemma {:induction false} UpperTail(p: Key)
    requires p != []
    ensures Upper(p[1..]).Some? ==> Upper(p) == Some([p[0]] + Upper(p[1..]).value)
    ensures Upper(p[1..]).None? ==> Upper(p) == if p[0] < 255 then Some([p[0] + 1]) else None
  {
    var n := |p| - 1;
    if n == 0 {
      assert p[1..] == [] && p[..0] == [];
      assert p[0] < 255 ==> [] + [p[0] + 1] == [p[0] + 1];
    } else {
      assert p[1..][..n - 1] == p[..n][1..];
      if p[n] < 255 {
        assert p[..n] + [p[n] + 1] == [p[0]] + (p[1..][..n - 1] + [p[n] + 1]);
      } else {
        UpperTail(p[..n]);
      }
    }
  }

  lemma HeadDecides(p: Key, k: Key)
    requires p != [] && k != [] && k[0] != p[0]
    ensures !InRange(k, p, Upper(p))
  {
    UpperTail(p);
    if k[0] > p[0] {
      var u := Upper(p).value;
      assert u[0] == p[0] || (u[0] == p[0] + 1 && u[1..] == []);
      assert !Less(k[1..], []);
      assert !Less(k, u);
    }
  }

  // ---------- pending keys ----------

  /** What follows the queue's base and "/pending/": priority byte, sequence number, id. */
  function PendingTail(prio: int, seqNo: nat, id: Key): Key
    requires seqNo <= MAX64
  {
    [prio % 256] + ([SLASH] + (Be8(seqNo) + ([SLASH] + id)))
  }

  function KeyPending(cmd: Key, tenant: Key, prio: int, seqNo: nat, id: Key): Key
    requires seqNo <= MAX64
  {
    QueueBase(cmd, tenant) + PENDING + PendingTail(prio, seqNo, id)
  }

  lemma ConsLess(x: Byte, y: Byte, a: Key, b: Key)
    ensures Less([x] + a, [y] + b) <==> x < y || (x == y && Less(a, b))
  {
    assert ([x] + a)[1..] == a && ([y] + b)[1..] == b;
  }

  /** Within a queue, pending keys are ordered by priority byte, then sequence number, then id. */
  lemma PendingOrder(cmd: Key, tenant: Key, p: int, s: nat, i: Key, q: int, t: nat, j: Key)
    requires s <= MAX64 && t <= MAX64
    ensures Less(KeyPending(cmd, tenant, p, s, i), KeyPending(cmd, tenant, q, t, j)) <==>
            p % 256 < q % 256 || (p % 256 == q % 256 && (s < t || (s == t && Less(i, j))))
  {
    LessCancel(QueueBase(cmd, tenant) + PENDING, PendingTail(p, s, i), PendingTail(q, t, j));
    var a, b := Be8(s) + ([SLASH] + i), Be8(t) + ([SLASH] + j);
    ConsLess(p % 256, q % 256, [SLASH] + a, [SLASH] + b);
    ConsLess(SLASH, SLASH, a, b);
    Be8Order(s, t, [SLASH] + i, [SLASH] + j);
    ConsLess(SLASH, SLASH, i, j);
  }

  function PendingPrioPrefix(cmd: Key, tenant: Key, prio: int): Key {
    QueueBase(cmd, tenant) + PENDING + [prio % 256, SLASH]
  }

  /** The scan of one priority meets exactly the queue's pending keys of that priority byte. */
  lemma PendingPrioExact(cmd: Key, tenant: Key, prio: int, q: int, s: nat, id: Key)
    requires s <= MAX64
    ensures var p := PendingPrioPrefix(cmd, tenant, prio);
            InRange(KeyPending(cmd, tenant, q, s, id), p, Upper(p)) <==> q % 256 == prio % 256
  {
    var p, k := PendingPrioPrefix(cmd, tenant, prio), KeyPending(cmd, tenant, q, s, id);
    PrefixRangeExact(p, k);
    var b := QueueBase(cmd, tenant) + PENDING;
    assert k[|b|] == q % 256 && p[|b|] == prio % 256;
    assert k == b + [q % 256, SLASH] + (Be8(s) + ([SLASH] + id));
  }

  /** The first key a scan of one priority meets carries the least sequence number of all
      pending keys of that priority: first in, first out. */
  lemma ScanIsFifo(db: Db, ks: seq<Key>, cmd: Key, tenant: Key, prio: int, s: nat, id: Key, t: nat, other: Key)
    requires var p := PendingPrioPrefix(cmd, tenant, prio); IsScan(db, p, Upper(p), ks)
    requires s <= MAX64 && t <= MAX64
    requires ks != [] && ks[0] == KeyPending(cmd, tenant, prio, s, id)
    requires KeyPending(cmd, tenant, prio, t, other) in db
    ensures s <= t
  {
    var k := KeyPending(cmd, tenant, prio, t, other);
    PendingPrioExact(cmd, tenant, prio, prio, t, other);
    assert k in ks;
    var n :| 0 <= n < |ks| && ks[n] == k;
    if n > 0 {
      PendingOrder(cmd, tenant, prio, s, id, prio, t, other);
    } else {
      SameSeq(cmd, tenant, prio, s, id, t, other);
    }
  }

  lemma SameSeq(cmd: Key, tenant: Key, prio: int, s: nat, i: Key, t: nat, j: Key)
    requires s <= MAX64 && t <= MAX64
    requires KeyPending(cmd, tenant, prio, s, i) == KeyPending(cmd, tenant, prio, t, j)
    ensures s == t
  {
    var k := KeyPending(cmd, tenant, prio, s, i);
    PendingOrder(cmd, tenant, prio, s, i, prio, t, j);
    PendingOrder(cmd, tenant, prio, t, j, prio, s, i);
    LessIrreflexive(k);
  }

  // ---------- the task id at the end of a pending key ----------

  /** Everything after the last slash, if there is a slash. */
  function LastSegment(k: Key): (r: Option<Key>)
    ensures r.None? <==> SLASH !in k
    ensures r.Some? ==> SLASH !in r.value && |r.value| < |k| && k[|k| - |r.value| - 1] == SLASH
                        && k[|k| - |r.value|..] == r.value
  {
    if k == [] then None
    else if k[|k| - 1] == SLASH then Some([])
    else
      assert k == k[..|k| - 1] + [k[|k| - 1]];
      match LastSegment(k[..|k| - 1])
      case None => None
      case Some(r) => Some(r + [k[|k| - 1]])
  }

  method ParsePendingKey(key: Key) returns (id: Option<Key>)
    ensures id == LastSegment(key)
  {
    var i := |key| - 1;
    while i >= 0
      invariant -1 <= i < |key|
      invariant SLASH !in key[i + 1..]
    {
      if key[i] == SLASH {
        LastSegmentUnique(key, i);
        return Some(key[i + 1..]);
      }
      i := i - 1;
    }
    assert key[0..] == key;
    return None;
  }

  lemma LastSegmentUnique(k: Key, i: nat)
    requires i < |k| && k[i] == SLASH && SLASH !in k[i + 1..]
    ensures LastSegment(k) == Some(k[i + 1..])
  {
    hide LastSegment;
    var r := LastSegment(k).value;
    var j := |k| - |r| - 1;
    assert i == j;
  }

  /** A pending key gives its id back exactly when the id holds no slash. */
  lemma ParseFindsId(cmd: Key, tenant: Key, prio: int, s: nat, id: Key)
    requires s <= MAX64
    ensures LastSegment(KeyPending(cmd, tenant, prio, s, id)) == Some(id) <==> SLASH !in id
  {
    var k := KeyPending(cmd, tenant, prio, s, id);
    var i := |k| - |id| - 1;
    assert k[i] == SLASH && k[i + 1..] == id;
    if SLASH !in id {
      LastSegmentUnique(k, i);
    }
  }

  // ---------- delayed keys ----------

  function KeyDelayed(cmd: Key, tenant: Key, score: nat, id: Key): Key
    requires score <= MAX64
  {
    QueueBase(cmd, tenant) + DELAYED + (Be8(score) + ([SLASH] + id))
  }

  /** The upper bound of the scan for due entries; the addition wraps at 64 bits. */
  function DelayedUpper(cmd: Key, tenant: Key, max: nat): Key
    requires max <= MAX64
  {
    QueueBase(cmd, tenant) + DELAYED + Be8((max + 1) % (MAX64 + 1))
  }

  /** The scan up to a score meets exactly the entries with at most that score, unless the score
      is the largest 64-bit number: then the bound wraps and the scan meets nothing. */
  lemma DelayedUpToExact(cmd: Key, tenant: Key, max: nat, score: nat, id: Key)
    requires max <= MAX64 && score <= MAX64
    ensures InRange(KeyDelayed(cmd, tenant, score, id), QueueBase(cmd, tenant) + DELAYED,
                    Some(DelayedUpper(cmd, tenant, max)))
            <==> score <= max && max < MAX64
  {
    var b := QueueBase(cmd, tenant) + DELAYED;
    var k, next := KeyDelayed(cmd, tenant, score, id), (max + 1) % (MAX64 + 1);
    PrefixRangeExact(b, k);
    LessCancel(b, Be8(score) + ([SLASH] + id), Be8(next));
    assert Be8(next) + [] == Be8(next);
    Be8Order(score, next, [SLASH] + id, []);
  }

  // ---------- in-progress and dead-letter keys ----------

  function KeyInprog(cmd: Key, tenant: Key, id: Key): Key {
    QueueBase(cmd, tenant) + INPROG + id
  }

  function KeyDlq(cmd: Key, tenant: Key, id: Key): Key {
    QueueBase(cmd, tenant) + DLQ + id
  }

  // ---------- queues do not see each other ----------

  /** A key of one queue starts with the base of another only when the two share command and
      tenant segments, as long as no segment holds a slash. */
  lemma QueuesSeparate(c: Key, t: Key, x: Key, d: Key, u: Key, y: Key)
    requires SLASH !in CmdSeg(c) && SLASH !in CmdSeg(d) && SLASH !in t && SLASH !in u
    requires IsPrefix(QueueBase(c, t) + [SLASH] + x, QueueBase(d, u) + [SLASH] + y)
    ensures CmdSeg(c) == CmdSeg(d) && TenantSeg(t) == TenantSeg(u)
  {
    var rest, other := TenantSeg(t) + [SLASH] + x, TenantSeg(u) + [SLASH] + y;
    assert QueueBase(c, t) + [SLASH] + x == QUEUE + (CmdSeg(c) + [SLASH] + rest);
    assert QueueBase(d, u) + [SLASH] + y == QUEUE + (CmdSeg(d) + [SLASH] + other);
    DropCommon(QUEUE, CmdSeg(c) + [SLASH] + rest, CmdSeg(d) + [SLASH] + other);
    FirstSegment(CmdSeg(c), rest, CmdSeg(d), other);
    assert CmdSeg(c) + [SLASH] + rest == (CmdSeg(c) + [SLASH]) + rest;
    assert CmdSeg(d) + [SLASH] + other == (CmdSeg(c) + [SLASH]) + other;
    DropCommon(CmdSeg(c) + [SLASH], rest, other);
    FirstSegment(TenantSeg(t), x, TenantSeg(u), y);
  }

  lemma DropCommon(p: Key, a: Key, b: Key)
    requires IsPrefix(p + a, p + b)
    ensures IsPrefix(a, b)
  {
    assert forall i :: 0 <= i < |a| ==> a[i] == (p + a)[|p| + i] && b[i] == (p + b)[|p| + i];
  }

  lemma FirstSegment(a: Key, x: Key, b: Key, y: Key)
    requires SLASH !in a && SLASH !in b
    requires IsPrefix(a + [SLASH] + x, b + [SLASH] + y)
    ensures a == b
  {
    var k := b + [SLASH] + y;
    assert forall i :: 0 <= i < |a| ==> k[i] == a[i];
    assert k[|a|] == SLASH;
    assert k[|b|] == SLASH;
    assert |a| == |b|;
  }

  /** The missing tenant and the tenant "_" share their queues. */
  lemma EmptyTenantCollides(cmd: Key)
    ensures QueueBase(cmd, []) == QueueBase(cmd, EMPTY_TENANT) && EMPTY_TENANT != []
  {
  }
}
