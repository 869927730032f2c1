/** Recovery of the sequence counter that orders pending keys. */
module PendingSeq {
  import opened Bytes
  import opened KeyValue
  import opened Keys
  import opened Markers
  import opened Wrappers

  /** Where the sequence number of a key with the pending marker at `at` starts. */
  function SeqStart(at: nat): nat { at + |PENDING| + 1 + 1 }

  /** The sequence number recovery reads from a key; `None` when it skips the key. */
  function ReadSeq(k: Key): (r: Option<nat>)
    ensures r.Some? ==> r.value <= MAX64
  {
    match IndexFrom(k, PENDING, 0)
    case None => None
    case Some(at) =>
      if SeqStart(at) + 8 > |k| then None
      else
        Pow256Of8();
        Some(FromBytes(k[SeqStart(at)..SeqStart(at) + 8]))
  }

  lemma PendingParts(cmd: Key, tenant: Key, prio: int, s: nat, id: Key)
    requires s <= MAX64
    ensures var b := QueueBase(cmd, tenant); var k := KeyPending(cmd, tenant, prio, s, id);
            |k| == |b| + 20 + |id| && k[..|b| + 9] == b + PENDING && k[|b| + 11..|b| + 19] == Be8(s)
            && k[..|b| + 11] == b + PENDING + [prio % 256, SLASH]
  {
  }

  lemma ReadsBack(cmd: Key, tenant: Key, prio: int, s: nat, id: Key)
    requires s <= MAX64 && MarkerOnce(cmd, tenant, PENDING)
    ensures ReadSeq(KeyPending(cmd, tenant, prio, s, id)) == Some(s)
  {
    var b, k := QueueBase(cmd, tenant), KeyPending(cmd, tenant, prio, s, id);
    PendingParts(cmd, tenant, prio, s, id);
    assert k == b + PENDING + PendingTail(prio, s, id);
    FirstMarkerIff(cmd, tenant, PENDING, PendingTail(prio, s, id));
    Pow256Of8();
    BytesOfNumber(s, 8);
  }

  /** Two occurrences of the marker overlap in at most the one slash they share. */
  lemma MarkersApart(k: Key, i: nat, j: nat)
    requires i < j && OccursAt(k, PENDING, i) && OccursAt(k, PENDING, j)
    ensures i + 8 <= j
  {
    assert k[j] == k[j..j + 9][0];
    assert j < i + 9 ==> k[j] == k[i..i + 9][j - i];
  }

  /** Keys that agree on the base, the marker and the two bytes after it are read alike when the
      marker occurs early: the bytes read end before the sequence number. */
  lemma EarlyMarkerReads(k: Key, l: Key, n: nat, at: nat)
    requires n + 19 <= |k| == |l| && k[..n + 11] == l[..n + 11]
    requires OccursAt(k, PENDING, n) && at < n && OccursAt(k, PENDING, at)
    ensures ReadSeq(k) == ReadSeq(l)
  {
    var first := IndexFrom(k, PENDING, 0).value;
    MarkersApart(k, first, n);
    forall j | 0 <= j <= first ensures OccursAt(l, PENDING, j) <==> OccursAt(k, PENDING, j) {
      OccursInPrefix(k, k[..n + 11], PENDING, j);
      OccursInPrefix(l, k[..n + 11], PENDING, j);
    }
    IndexUnique(l, PENDING, first);
    var m := SeqStart(first);
    assert k[m..m + 8] == k[..n + 11][m..m + 8];
    assert l[m..m + 8] == l[..n + 11][m..m + 8];
  }

  ghost predicate AlwaysReadsBack(cmd: Key, tenant: Key) {
    forall prio: int, s: nat, id: Key :: s <= MAX64 ==> ReadSeq(KeyPending(cmd, tenant, prio, s, id)) == Some(s)
  }

  /** Recovery reads every sequence number of a queue back exactly when the marker does not
      occur in the queue's base. */
  lemma ReadsBackExactly(cmd: Key, tenant: Key)
    ensures AlwaysReadsBack(cmd, tenant) <==> MarkerOnce(cmd, tenant, PENDING)
  {
    if MarkerOnce(cmd, tenant, PENDING) {
      forall prio: int, s: nat, id: Key | s <= MAX64
        ensures ReadSeq(KeyPending(cmd, tenant, prio, s, id)) == Some(s)
      {
        ReadsBack(cmd, tenant, prio, s, id);
      }
    } else {
      var b := QueueBase(cmd, tenant);
      var at :| 0 <= at < |b| && OccursAt(b + PENDING, PENDING, at);
      var k, l := KeyPending(cmd, tenant, 0, 0, []), KeyPending(cmd, tenant, 0, 1, []);
      PendingParts(cmd, tenant, 0, 0, []);
      PendingParts(cmd, tenant, 0, 1, []);
      OccursInPrefix(k, b + PENDING, PENDING, at);
      assert OccursAt(k, PENDING, |b|);
      EarlyMarkerReads(k, l, |b|, at);
      assert !(ReadSeq(k) == Some(0) && ReadSeq(l) == Some(1));
    }
  }

  const WORD: Key := [112, 101, 110, 100, 105, 110, 103]  // "pending"

  /** With slash-free segments that means that neither segment is "pending". */
  lemma PendingOnceIff(cmd: Key, tenant: Key)
    requires SLASH !in CmdSeg(cmd) && SLASH !in tenant
    ensures AlwaysReadsBack(cmd, tenant) <==> CmdSeg(cmd) != WORD && TenantSeg(tenant) != WORD
  {
    ReadsBackExactly(cmd, tenant);
    MarkerOnceIff(cmd, tenant, PENDING, WORD);
  }

  // ---------- the counter ----------

  class SeqCounter {
    var last: nat

    /** Scans every queue key and keeps the largest sequence number it reads. */
    method Recover(ks: seq<Key>)
      modifies this
      ensures last <= MAX64
      ensures forall k :: k in ks && ReadSeq(k).Some? ==> ReadSeq(k).value <= last
      ensures last == 0 || exists k :: k in ks && ReadSeq(k) == Some(last)
    {
      var max := 0;
      var i := 0;
      while i < |ks|
        invariant 0 <= i <= |ks| && max <= MAX64
        invariant forall n :: 0 <= n < i && ReadSeq(ks[n]).Some? ==> ReadSeq(ks[n]).value <= max
        invariant max == 0 || exists k :: k in ks && ReadSeq(k) == Some(max)
      {
        var s := ReadSeq(ks[i]);
        if s.Some? && s.value > max {
          max := s.value;
          assert ks[i] in ks;
        }
        i := i + 1;
      }
      last := max;
    }

    /** The next sequence number: a 64-bit counter that wraps. */
    method Next() returns (s: nat)
      requires last <= MAX64
      modifies this
      ensures last == s == (old(last) + 1) % (MAX64 + 1)
      ensures s <= MAX64 && (s > old(last) <==> old(last) < MAX64)
    {
      last := (last + 1) % (MAX64 + 1);
      s := last;
    }
  }

  ghost predicate Recovered(db: Db, last: nat, ks: seq<Key>) {
    IsScan(db, QUEUE, Upper(QUEUE), ks)
    && forall k :: k in ks && ReadSeq(k).Some? ==> ReadSeq(k).value <= last
  }

  /** A task enqueued after recovery sorts behind every task already pending in its queue at its
      priority, in any queue whose base does not hold the marker. */
  lemma EnqueueAfterRecovery(db: Db, ks: seq<Key>, last: nat, cmd: Key, tenant: Key, prio: int, s: nat, i: Key, j: Key)
    requires Recovered(db, last, ks) && last < MAX64 && s <= MAX64
    requires MarkerOnce(cmd, tenant, PENDING)
    requires KeyPending(cmd, tenant, prio, s, i) in db
    ensures Less(KeyPending(cmd, tenant, prio, s, i), KeyPending(cmd, tenant, prio, last + 1, j))
  {
    var k := KeyPending(cmd, tenant, prio, s, i);
    assert IsPrefix(QUEUE, k);
    PrefixRangeExact(QUEUE, k);
    ReadsBack(cmd, tenant, prio, s, i);
    assert k in ks;
    PendingOrder(cmd, tenant, prio, s, i, prio, last + 1, j);
  }

  const C: Key := [99]  // "c"

  /** The number recovery reads for command "c" and tenant "pending" at a priority:
      the bytes "nding/", the priority and a slash. */
  function Misread(prio: int): (v: nat)
    ensures v <= MAX64
  {
    Pow256Of8();
    FromBytes([110, 100, 105, 110, 103, 47, prio % 256, 47])
  }

  /** With the tenant "pending" recovery yields the same number whatever is stored, and a task
      enqueued after it overtakes a pending one with a larger sequence number. */
  lemma EarlyMarkerOvertakes(prio: int, s: nat, i: Key, j: Key)
    requires Misread(prio) + 1 < s <= MAX64
    ensures var stored := KeyPending(C, WORD, prio, s, i);
            ReadSeq(stored) == Some(Misread(prio)) && Less(KeyPending(C, WORD, prio, Misread(prio) + 1, j), stored)
  {
    hide Less;
    var b, k := QueueBase(C, WORD), KeyPending(C, WORD, prio, s, i);
    PendingParts(C, WORD, prio, s, i);
    var head := b + PENDING + [prio % 256, SLASH];
    assert CmdSeg(C) == C;
    assert head == QUEUE + [99, 47] + WORD + PENDING + [prio % 256, SLASH];
    assert head[9..18] == PENDING;
    FirstMarker(k, head);
    assert k[20..28] == k[..28][20..28] == [110, 100, 105, 110, 103, 47, prio % 256, 47];
    PendingOrder(C, WORD, prio, Misread(prio) + 1, j, prio, s, i);
  }

  lemma MarkerStart(k: Key, j: nat)
    ensures OccursAt(k, PENDING, j) ==> k[j] == SLASH && k[j + 1] == 112
  {
    if OccursAt(k, PENDING, j) {
      assert k[j] == k[j..j + 9][0] && k[j + 1] == k[j..j + 9][1];
    }
  }

  lemma FirstMarker(k: Key, head: Key)
    requires |head| == 28 <= |k| && k[..28] == head && head[9..18] == PENDING
    requires head[..9] == QUEUE + [99]
    ensures IndexFrom(k, PENDING, 0) == Some(9)
  {
    OccursInPrefix(k, head, PENDING, 9);
    forall n | 0 <= n < 9 ensures !OccursAt(k, PENDING, n) {
      MarkerStart(k, n);
      assert k[n] == head[..9][n];
      assert n < 8 ==> k[n + 1] == head[..9][n + 1];
    }
    IndexUnique(k, PENDING, 9);
  }
}
