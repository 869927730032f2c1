/** Replicas that apply one committed log: every replica that has applied all of it holds the same
    state, whatever crashes, replays and snapshots lie behind it. */
module Replication {
  import opened Bytes
  import opened KeyValue
  import opened Snapshot
  import opened Wrappers

  /** The payload of a log entry: nothing, bytes that are no batch, or a batch. */
  datatype Payload = Empty | Malformed | Batch(ops: seq<Op>)

  datatype LogEntry = LogEntry(command: bool, data: Payload)

  type Log = seq<LogEntry>

  /** The writes an entry stands for: none unless it is a command with a well-formed batch. */
  function EntryOps(e: LogEntry): seq<Op> {
    if e.command && e.data.Batch? then e.data.ops else []
  }

  function ApplyEntry(db: Db, e: LogEntry): Db {
    ApplyOps(db, EntryOps(e))
  }

  class Fsm {
    var db: Db

    /** Applies a committed entry; reports failure only for a malformed batch. */
    method Apply(e: LogEntry) returns (ok: bool)
      modifies this
      ensures db == ApplyEntry(old(db), e)
      ensures e.command && e.data.Batch? ==> LastWriterWins(old(db), e.data.ops, db)
      ensures !(e.command && e.data.Batch?) ==> db == old(db)
      ensures ok <==> !(e.command && e.data.Malformed?)
    {
      if !e.command || e.data.Empty? {
        return true;
      }
      if e.data.Malformed? {
        return false;
      }
      BatchLastWriter(db, e.data.ops);
      db := ApplyOps(db, e.data.ops);
      return true;
    }
  }

  // ---------- the state a log stands for ----------

  /** The state after the first `n` entries, from nothing. */
  function Fold(log: Log, n: nat): Db
    requires n <= |log|
  {
    if n == 0 then map[] else ApplyEntry(Fold(log, n - 1), log[n - 1])
  }

  function Get(db: Db, k: Key): Option<Value> {
    if k in db then Some(db[k]) else None
  }

  predicate Writes(ops: seq<Op>, k: Key) {
    exists i :: 0 <= i < |ops| && ops[i].key == k
  }

  /** Some entry from `a` up to, not including, `b` writes `k`. */
  predicate Touched(log: Log, a: nat, b: nat, k: Key)
    requires b <= |log|
  {
    exists i :: a <= i < b && Writes(EntryOps(log[i]), k)
  }

  /** A batch decides what it writes and leaves the rest. */
  lemma {:induction false} BatchDecides(db: Db, other: Db, ops: seq<Op>, k: Key)
    ensures Writes(ops, k) ==> Get(ApplyOps(db, ops), k) == Get(ApplyOps(other, ops), k)
    ensures !Writes(ops, k) ==> Get(ApplyOps(db, ops), k) == Get(db, k)
    decreases |ops|
  {
    if ops != [] {
      var d, o := ApplyOp(db, ops[0]), ApplyOp(other, ops[0]);
      BatchDecides(d, o, ops[1..], k);
      assert forall i :: 0 <= i < |ops[1..]| ==> ops[1..][i] == ops[i + 1];
      if Writes(ops, k) && !Writes(ops[1..], k) {
        var i :| 0 <= i < |ops| && ops[i].key == k;
        assert ops[0].key == k;
        BatchDecides(o, d, ops[1..], k);
      }
    }
  }

  lemma {:induction false} FoldKeepsUntouched(log: Log, a: nat, b: nat, k: Key)
    requires a <= b <= |log| && !Touched(log, a, b, k)
    ensures Get(Fold(log, b), k) == Get(Fold(log, a), k)
    decreases b
  {
    if a < b {
      FoldKeepsUntouched(log, a, b - 1, k);
      BatchDecides(Fold(log, b - 1), map[], EntryOps(log[b - 1]), k);
    }
  }

  lemma {:induction false} FoldGrows(log: Log, e: LogEntry, n: nat)
    requires n <= |log|
    ensures Fold(log + [e], n) == Fold(log, n)
  {
    if n > 0 {
      FoldGrows(log, e, n - 1);
    }
  }

  /** Operation `i` of entry `p` is a committed write of `k`. */
  predicate WritesAt(log: Log, p: nat, i: nat, k: Key) {
    && p < |log| && log[p].command && log[p].data.Batch?
    && i < |log[p].data.ops| && log[p].data.ops[i].key == k
  }

  /** It is the last one among the first `n` entries. */
  ghost predicate LastWrite(log: Log, n: nat, p: nat, i: nat, k: Key) {
    p < n && WritesAt(log, p, i, k)
    && forall q: nat, j: nat :: q < n && WritesAt(log, q, j, k) ==> q < p || (q == p && j <= i)
  }

  lemma LastInEntry(log: Log, n: nat, p: nat, i: nat, k: Key)
    requires n <= |log| && LastWrite(log, n, p, i, k)
    ensures forall j :: i < j < |log[p].data.ops| ==> log[p].data.ops[j].key != k
  {
    forall j | i < j < |log[p].data.ops| ensures log[p].data.ops[j].key != k {
      assert !WritesAt(log, p, j, k);
    }
  }

  lemma EntryLeaves(log: Log, m: nat, k: Key)
    requires m < |log| && forall i: nat :: !WritesAt(log, m, i, k)
    ensures Get(Fold(log, m + 1), k) == Get(Fold(log, m), k)
  {
    var e := log[m];
    if e.command && e.data.Batch? {
      forall i | 0 <= i < |e.data.ops| ensures e.data.ops[i].key != k {
        assert !WritesAt(log, m, i, k);
      }
      BatchLastWriter(Fold(log, m), e.data.ops);
    }
  }

  /** What a write leaves at its key. */
  function Left(op: Op): Option<Value> {
    match op
    case Put(_, v) => Some(v)
    case Del(_) => None
  }

  /** In the state of a log a key has the value of the last put on it in any committed batch, and is absent
      if a delete comes last. */
  lemma {:induction false} FoldLastWriter(log: Log, n: nat, k: Key, p: nat, i: nat)
    requires n <= |log| && LastWrite(log, n, p, i, k)
    ensures Get(Fold(log, n), k) == Left(log[p].data.ops[i])
  {
    var m := n - 1;
    if p == m {
      LastInEntry(log, n, p, i, k);
      EntryLast(log, p, i, k);
    } else {
      hide Fold, WritesAt;
      EntryLeaves(log, m, k);
      FoldLastWriter(log, m, k, p, i);
    }
  }

  lemma EntryLast(log: Log, p: nat, i: nat, k: Key)
    requires WritesAt(log, p, i, k) && forall j :: i < j < |log[p].data.ops| ==> log[p].data.ops[j].key != k
    ensures Get(Fold(log, p + 1), k) == Left(log[p].data.ops[i])
  {
    BatchLastWriter(Fold(log, p), log[p].data.ops);
  }

  /** A key that no committed batch writes is absent. */
  lemma {:induction false} FoldUnwritten(log: Log, n: nat, k: Key)
    requires n <= |log| && forall p: nat, i: nat :: p < n ==> !WritesAt(log, p, i, k)
    ensures k !in Fold(log, n)
  {
    if n > 0 {
      EntryLeaves(log, n - 1, k);
      FoldUnwritten(log, n - 1, k);
    }
  }

  // ---------- stores on their way to a log state ----------

  /** A store that, having next to apply entry `next`, will agree with the log from `high` on: it
      already agrees at `high` on every key the entries in between do not write. */
  ghost predicate Converging(db: Db, log: Log, next: nat, high: nat) {
    next <= high <= |log|
    && forall k :: IsPrefix(STATE, k) && !Touched(log, next, high, k) ==> Get(db, k) == Get(Fold(log, high), k)
  }

  lemma ConvergingGrows(db: Db, log: Log, e: LogEntry, next: nat, high: nat)
    requires Converging(db, log, next, high)
    ensures Converging(db, log + [e], next, high)
  {
    FoldGrows(log, e, high);
    forall k | IsPrefix(STATE, k) && !Touched(log + [e], next, high, k)
      ensures Get(db, k) == Get(Fold(log + [e], high), k)
    {
      assert forall i :: next <= i < high ==> (log + [e])[i] == log[i];
    }
  }

  lemma ConvergingRaise(db: Db, log: Log, next: nat, high: nat, higher: nat)
    requires Converging(db, log, next, high) && high <= higher <= |log|
    ensures Converging(db, log, next, higher)
  {
    forall k | IsPrefix(STATE, k) && !Touched(log, next, higher, k) ensures Get(db, k) == Get(Fold(log, higher), k) {
      FoldKeepsUntouched(log, high, higher, k);
    }
  }

  lemma ConvergingStep(db: Db, log: Log, next: nat, high: nat)
    requires Converging(db, log, next, high) && next < high
    ensures Converging(ApplyEntry(db, log[next]), log, next + 1, high)
  {
    var d := ApplyEntry(db, log[next]);
    forall k | IsPrefix(STATE, k) && !Touched(log, next + 1, high, k) ensures Get(d, k) == Get(Fold(log, high), k) {
      BatchDecides(db, Fold(log, next), EntryOps(log[next]), k);
      if Writes(EntryOps(log[next]), k) {
        FoldKeepsUntouched(log, next + 1, high, k);
      } else {
        assert !Touched(log, next, high, k);
      }
    }
  }

  /** Applying the next entry keeps a store converging; past `high` the mark moves along. */
  lemma ConvergingApply(db: Db, log: Log, next: nat, high: nat)
    requires Converging(db, log, next, high) && next < |log|
    ensures Converging(ApplyEntry(db, log[next]), log, next + 1, if next < high then high else next + 1)
  {
    if next == high {
      ConvergingRaise(db, log, next, high, next + 1);
      ConvergingStep(db, log, next, next + 1);
    } else {
      ConvergingStep(db, log, next, high);
    }
  }

  /** The first `n` entries applied to any store. */
  function ApplyPrefix(db: Db, log: Log, n: nat): Db
    requires n <= |log|
  {
    if n == 0 then db else ApplyEntry(ApplyPrefix(db, log, n - 1), log[n - 1])
  }

  lemma {:induction false} PrefixDecides(db: Db, other: Db, log: Log, n: nat, k: Key)
    requires n <= |log|
    ensures Touched(log, 0, n, k) ==> Get(ApplyPrefix(db, log, n), k) == Get(ApplyPrefix(other, log, n), k)
    ensures !Touched(log, 0, n, k) ==> Get(ApplyPrefix(db, log, n), k) == Get(db, k)
    decreases n
  {
    if n > 0 {
      PrefixDecides(db, other, log, n - 1, k);
      BatchDecides(ApplyPrefix(db, log, n - 1), ApplyPrefix(other, log, n - 1), EntryOps(log[n - 1]), k);
      BatchDecides(ApplyPrefix(other, log, n - 1), ApplyPrefix(db, log, n - 1), EntryOps(log[n - 1]), k);
      PrefixDecides(other, db, log, n - 1, k);
    }
  }

  /** Replaying a log over a store that already holds a prefix of it gives what applying it once gives. */
  lemma ReplayAbsorbsPrefix(db: Db, log: Log, p: nat, n: nat)
    requires p <= n <= |log|
    ensures ApplyPrefix(ApplyPrefix(db, log, p), log, n) == ApplyPrefix(db, log, n)
  {
    var once, twice := ApplyPrefix(db, log, n), ApplyPrefix(ApplyPrefix(db, log, p), log, n);
    forall k ensures Get(twice, k) == Get(once, k) {
      PrefixDecides(ApplyPrefix(db, log, p), db, log, n, k);
      PrefixDecides(db, db, log, n, k);
      PrefixDecides(db, db, log, p, k);
    }
    SameGets(twice, once);
  }

  /** All keys of the state come from the first `high` entries. */
  ghost predicate Within(db: Db, log: Log, high: nat)
    requires high <= |log|
  {
    forall k :: k in db && IsPrefix(STATE, k) ==> Touched(log, 0, high, k)
  }

  lemma ConvergingWithin(db: Db, log: Log, next: nat, high: nat)
    requires Converging(db, log, next, high)
    ensures Within(db, log, high)
  {
    forall k | k in db && IsPrefix(STATE, k) ensures Touched(log, 0, high, k) {
      if !Touched(log, 0, high, k) {
        FoldKeepsUntouched(log, 0, high, k);
      }
    }
  }

  lemma WithinGrows(db: Db, log: Log, e: LogEntry, high: nat, higher: nat)
    requires high <= higher <= |log| && Within(db, log, high)
    ensures Within(db, log + [e], higher) && Within(db, log, higher)
  {
    assert forall i :: 0 <= i < higher ==> (log + [e])[i] == log[i];
    forall k | k in db && IsPrefix(STATE, k) ensures Touched(log + [e], 0, higher, k) && Touched(log, 0, higher, k) {
      assert Touched(log, 0, high, k);
      var i :| 0 <= i < high && Writes(EntryOps(log[i]), k);
      assert Writes(EntryOps((log + [e])[i]), k);
    }
  }

  /** Replay from the first entry over any leftovers of the same log converges. */
  lemma ReplayConverges(db: Db, log: Log, high: nat)
    requires high <= |log| && Within(db, log, high)
    ensures Converging(db, log, 0, high)
  {
    forall k | IsPrefix(STATE, k) && !Touched(log, 0, high, k) ensures Get(db, k) == Get(Fold(log, high), k) {
      FoldKeepsUntouched(log, 0, high, k);
    }
  }

  /** Only the state range matters. */
  lemma ConvergingSameState(db: Db, other: Db, log: Log, next: nat, high: nat)
    requires Converging(db, log, next, high) && State(db) == State(other)
    ensures Converging(other, log, next, high)
  {
    forall k | IsPrefix(STATE, k) ensures Get(other, k) == Get(db, k) {
      assert Get(State(db), k) == Get(State(other), k);
    }
  }

  // ---------- the cluster ----------

  /** A snapshot on disk: the stream of the store it was taken from, labelled with the number of
      entries applied; `high` is the mark of that store. */
  datatype Snap = Snap(src: Db, scan: seq<Key>, index: nat, high: nat)

  ghost predicate WellTaken(s: Snap) {
    && IsScan(s.src, STATE, Some(STATE_END), s.scan) && Fits(s.src, s.scan)
    && forall i :: 0 <= i < |s.scan| ==> s.scan[i] in s.src
  }

  ghost function Stream(s: Snap): Key
    requires WellTaken(s)
  {
    Encode(EntriesOf(s.src, s.scan))
  }

  /** A replica: its store, the next entry to apply, the highest entry ever reflected in any of its
      stores, the stores a crash may fall back to, its snapshot, and whether a restore broke off. */
  datatype Node = Node(db: Db, next: nat, high: nat, past: seq<Db>, snap: Option<Snap>, torn: bool)

  datatype Cluster = Cluster(log: Log, nodes: seq<Node>)

  datatype Event =
    | Commit(e: LogEntry)
    | Apply(i: nat)
    | LocalWrite(i: nat, ops: seq<Op>)
    | Crash(i: nat, back: nat)
    | TakeSnapshot(i: nat, scan: seq<Key>)
    | Install(i: nat, from: nat)
    | BreakOff(i: nat, stream: Key)

  /** Every batch writes state keys only. */
  predicate Scoped(e: LogEntry) {
    forall i :: 0 <= i < |EntryOps(e)| ==> IsPrefix(STATE, EntryOps(e)[i].key)
  }

  /** What may happen. Writes of log and votes stay outside the state range; a crash falls back to
      any earlier store, as writes are not synced; only a complete snapshot is restored. */
  ghost predicate Enabled(c: Cluster, ev: Event) {
    match ev
    case Commit(e) => Scoped(e)
    case Apply(i) => i < |c.nodes| && !c.nodes[i].torn && c.nodes[i].next < |c.log|
    case LocalWrite(i, ops) => i < |c.nodes| && forall j :: 0 <= j < |ops| ==> !IsPrefix(STATE, ops[j].key)
    case Crash(i, back) =>
      i < |c.nodes| && back <= |c.nodes[i].past| && (c.nodes[i].snap.Some? ==> WellTaken(c.nodes[i].snap.value))
    case TakeSnapshot(i, scan) =>
      i < |c.nodes| && !c.nodes[i].torn && WellTaken(Snap(c.nodes[i].db, scan, c.nodes[i].next, c.nodes[i].high))
    case Install(i, from) => i < |c.nodes| && from < |c.nodes| && c.nodes[from].snap.Some?
                             && WellTaken(c.nodes[from].snap.value)
    case BreakOff(i, b) => i < |c.nodes| && c.nodes[i].snap.Some? && GoodHeader(b) && !Parse(b[8..]).ok
  }

  /** The store moves on; a crash may fall back to the old one. */
  function Advance(n: Node, db: Db, next: nat, high: nat): Node {
    n.(db := db, next := next, high := high, past := n.past + [n.db])
  }

  function Larger(a: nat, b: nat): nat { if a < b then b else a }

  /** After a crash: restore the snapshot if there is one, else replay the log from the start over
      whatever survived. */
  ghost function Restarted(n: Node, back: nat): Node
    requires back <= |n.past| && (n.snap.Some? ==> WellTaken(n.snap.value))
  {
    var left := (n.past + [n.db])[back];
    var past := (n.past + [n.db])[..back];
    match n.snap
    case None => n.(db := left, next := 0, past := past, torn := false)
    case Some(s) => n.(db := Restored(Stream(s), left), next := s.index, past := past + [left], torn := false)
  }

  ghost function Installed(n: Node, s: Snap): Node
    requires WellTaken(s)
  {
    Advance(n, Restored(Stream(s), n.db), s.index, Larger(n.high, s.high)).(snap := Some(s), torn := false)
  }

  function Applied(n: Node, log: Log): Node
    requires n.next < |log|
  {
    Advance(n, ApplyEntry(n.db, log[n.next]), n.next + 1, Larger(n.high, n.next + 1))
  }

  function SetNode(c: Cluster, i: nat, n: Node): Cluster
    requires i < |c.nodes|
  {
    c.(nodes := c.nodes[i := n])
  }

  ghost function Step(c: Cluster, ev: Event): Cluster
    requires Enabled(c, ev)
  {
    match ev
    case Commit(e) => c.(log := c.log + [e])
    case Apply(i) => SetNode(c, i, Applied(c.nodes[i], c.log))
    case LocalWrite(i, ops) =>
      SetNode(c, i, Advance(c.nodes[i], ApplyOps(c.nodes[i].db, ops), c.nodes[i].next, c.nodes[i].high))
    case Crash(i, back) => SetNode(c, i, Restarted(c.nodes[i], back))
    case TakeSnapshot(i, scan) =>
      SetNode(c, i, c.nodes[i].(snap := Some(Snap(c.nodes[i].db, scan, c.nodes[i].next, c.nodes[i].high))))
    case Install(i, from) => SetNode(c, i, Installed(c.nodes[i], c.nodes[from].snap.value))
    case BreakOff(i, b) =>
      SetNode(c, i, Advance(c.nodes[i], Restored(b, c.nodes[i].db), c.nodes[i].next, c.nodes[i].high).(torn := true))
  }

  // ---------- what every run keeps ----------

  ghost predicate SnapInv(log: Log, s: Snap) {
    WellTaken(s) && Converging(s.src, log, s.index, s.high)
  }

  ghost predicate NodeInv(log: Log, n: Node) {
    && n.high <= |log|
    && (!n.torn ==> Converging(n.db, log, n.next, n.high))
    && (n.torn ==> n.snap.Some?)
    && (n.snap.Some? ==> SnapInv(log, n.snap.value) && n.snap.value.high <= n.high)
    && (n.snap.None? ==> Within(n.db, log, n.high) && forall j :: 0 <= j < |n.past| ==> Within(n.past[j], log, n.high))
  }

  ghost predicate Inv(c: Cluster) {
    forall i :: 0 <= i < |c.nodes| ==> NodeInv(c.log, c.nodes[i])
  }

  lemma CommitInv(log: Log, e: LogEntry, n: Node)
    requires NodeInv(log, n)
    ensures NodeInv(log + [e], n)
  {
    if !n.torn {
      ConvergingGrows(n.db, log, e, n.next, n.high);
    }
    match n.snap {
      case Some(s) => ConvergingGrows(s.src, log, e, s.index, s.high);
      case None =>
        WithinGrows(n.db, log, e, n.high, n.high);
        forall j | 0 <= j < |n.past| ensures Within(n.past[j], log + [e], n.high) {
          WithinGrows(n.past[j], log, e, n.high, n.high);
        }
    }
  }

  /** A node that moves on to a store converging to a mark at least as high as before. */
  lemma AdvanceInv(log: Log, n: Node, db: Db, next: nat, high: nat)
    requires NodeInv(log, n) && n.high <= high && Converging(db, log, next, high)
    ensures NodeInv(log, Advance(n, db, next, high).(torn := false))
  {
    var m := Advance(n, db, next, high);
    if n.snap.None? {
      ConvergingWithin(db, log, next, high);
      forall j | 0 <= j < |m.past| ensures Within(m.past[j], log, high) {
        var d := if j < |n.past| then n.past[j] else n.db;
        assert m.past[j] == d;
        WithinGrows(d, log, LogEntry(false, Empty), n.high, high);
      }
    }
  }

  lemma {:induction false} OutsideWrites(db: Db, ops: seq<Op>)
    requires forall j :: 0 <= j < |ops| ==> !IsPrefix(STATE, ops[j].key)
    ensures State(ApplyOps(db, ops)) == State(db)
    decreases |ops|
  {
    if ops != [] {
      OutsideWrites(ApplyOp(db, ops[0]), ops[1..]);
      assert State(ApplyOp(db, ops[0])) == State(db);
    }
  }

  lemma LocalWriteInv(log: Log, n: Node, ops: seq<Op>)
    requires NodeInv(log, n) && forall j :: 0 <= j < |ops| ==> !IsPrefix(STATE, ops[j].key)
    ensures NodeInv(log, Advance(n, ApplyOps(n.db, ops), n.next, n.high))
  {
    OutsideWrites(n.db, ops);
    if !n.torn {
      ConvergingSameState(n.db, ApplyOps(n.db, ops), log, n.next, n.high);
      AdvanceInv(log, n, ApplyOps(n.db, ops), n.next, n.high);
    }
  }

  /** A restored snapshot converges to whatever mark the replica already has. */
  lemma RestoreConverges(log: Log, s: Snap, db: Db, high: nat)
    requires SnapInv(log, s) && s.high <= high <= |log|
    ensures Converging(Restored(Stream(s), db), log, s.index, high)
  {
    RoundTrip(s.src, s.scan, db);
    ConvergingSameState(s.src, Restored(Stream(s), db), log, s.index, s.high);
    ConvergingRaise(Restored(Stream(s), db), log, s.index, s.high, high);
  }

  lemma RestartInv(log: Log, n: Node, back: nat)
    requires NodeInv(log, n) && back <= |n.past|
    ensures NodeInv(log, Restarted(n, back))
  {
    var left := (n.past + [n.db])[back];
    match n.snap {
      case Some(s) => RestoreConverges(log, s, left, n.high);
      case None => ReplayConverges(left, log, n.high);
    }
  }

  lemma InstallInv(log: Log, n: Node, s: Snap)
    requires NodeInv(log, n) && SnapInv(log, s)
    ensures NodeInv(log, Installed(n, s))
  {
    RestoreConverges(log, s, n.db, Larger(n.high, s.high));
  }

  lemma StepInv(c: Cluster, ev: Event)
    requires Inv(c) && Enabled(c, ev)
    ensures Inv(Step(c, ev))
  {
    match ev {
      case Commit(e) =>
        forall i | 0 <= i < |c.nodes| ensures NodeInv(c.log + [e], c.nodes[i]) {
          CommitInv(c.log, e, c.nodes[i]);
        }
      case Apply(i) =>
        var n := c.nodes[i];
        ConvergingApply(n.db, c.log, n.next, n.high);
        AdvanceInv(c.log, n, ApplyEntry(n.db, c.log[n.next]), n.next + 1, Larger(n.high, n.next + 1));
      case LocalWrite(i, ops) => LocalWriteInv(c.log, c.nodes[i], ops);
      case Crash(i, back) => RestartInv(c.log, c.nodes[i], back);
      case TakeSnapshot(i, scan) =>
      case Install(i, from) => InstallInv(c.log, c.nodes[i], c.nodes[from].snap.value);
      case BreakOff(i, b) =>
    }
  }

  ghost predicate EnabledAll(c: Cluster, evs: seq<Event>)
    decreases |evs|
  {
    evs == [] || (Enabled(c, evs[0]) && EnabledAll(Step(c, evs[0]), evs[1..]))
  }

  ghost function Run(c: Cluster, evs: seq<Event>): Cluster
    requires EnabledAll(c, evs)
    decreases |evs|
  {
    if evs == [] then c else Run(Step(c, evs[0]), evs[1..])
  }

  lemma {:induction false} RunInv(c: Cluster, evs: seq<Event>)
    requires Inv(c) && EnabledAll(c, evs)
    ensures Inv(Run(c, evs))
    decreases |evs|
  {
    if evs != [] {
      StepInv(c, evs[0]);
      RunInv(Step(c, evs[0]), evs[1..]);
    }
  }

  /** Replicas that start without state, an empty log, no snapshot. */
  ghost predicate Initial(c: Cluster) {
    c.log == [] && forall i :: 0 <= i < |c.nodes| ==> Fresh(c.nodes[i])
  }

  ghost predicate Fresh(n: Node) {
    n.next == 0 && n.high == 0 && n.past == [] && n.snap.None? && !n.torn && State(n.db) == map[]
  }

  lemma FreshInv(n: Node)
    requires Fresh(n)
    ensures NodeInv([], n)
  {
    forall k | IsPrefix(STATE, k) ensures k !in n.db {
      assert k !in State(n.db);
    }
    assert Within(n.db, [], 0);
    ReplayConverges(n.db, [], 0);
  }

  lemma InitialInv(c: Cluster)
    requires Initial(c)
    ensures Inv(c)
  {
    forall i | 0 <= i < |c.nodes| ensures NodeInv(c.log, c.nodes[i]) {
      FreshInv(c.nodes[i]);
    }
  }

  // ---------- what the invariant means ----------

  lemma {:induction false} FoldInState(log: Log, n: nat, k: Key)
    requires n <= |log| && (forall i :: 0 <= i < |log| ==> Scoped(log[i])) && k in Fold(log, n)
    ensures IsPrefix(STATE, k)
  {
    if n > 0 {
      BatchDecides(Fold(log, n - 1), map[], EntryOps(log[n - 1]), k);
      assert Scoped(log[n - 1]);
      if !Writes(EntryOps(log[n - 1]), k) {
        FoldInState(log, n - 1, k);
      }
    }
  }

  lemma CaughtUp(db: Db, log: Log, n: nat)
    requires Converging(db, log, n, n) && forall i :: 0 <= i < |log| ==> Scoped(log[i])
    ensures State(db) == Fold(log, n)
  {
    forall k ensures Get(State(db), k) == Get(Fold(log, n), k) {
      if !IsPrefix(STATE, k) && k in Fold(log, n) {
        FoldInState(log, n, k);
      }
      assert !Touched(log, n, n, k);
    }
    SameGets(State(db), Fold(log, n));
  }

  lemma SameGets(a: Db, b: Db)
    requires forall k :: Get(a, k) == Get(b, k)
    ensures a == b
  {
    forall k ensures k in a <==> k in b {
      assert Get(a, k) == Get(b, k);
    }
    forall k | k in a ensures a[k] == b[k] {
      assert Get(a, k) == Get(b, k);
    }
  }

  lemma {:induction false} RunScoped(c: Cluster, evs: seq<Event>)
    requires EnabledAll(c, evs) && forall i :: 0 <= i < |c.log| ==> Scoped(c.log[i])
    ensures var l := Run(c, evs).log; c.log <= l && forall i :: 0 <= i < |l| ==> Scoped(l[i])
    decreases |evs|
  {
    if evs != [] {
      RunScoped(Step(c, evs[0]), evs[1..]);
    }
  }

  /** The entries committed in a run, in order. */
  function Commits(evs: seq<Event>): Log
    decreases |evs|
  {
    if evs == [] then [] else (if evs[0].Commit? then [evs[0].e] else []) + Commits(evs[1..])
  }

  /** The log of a run is what was committed, in order; nothing else adds to it and nothing is dropped. */
  lemma {:induction false} RunLog(c: Cluster, evs: seq<Event>)
    requires EnabledAll(c, evs)
    ensures Run(c, evs).log == c.log + Commits(evs)
    decreases |evs|
  {
    hide Step, Enabled;
    if evs == [] {
      assert c.log + [] == c.log;
    } else {
      StepLog(c, evs[0]);
      RunLog(Step(c, evs[0]), evs[1..]);
      assert evs[0].Commit? ==> c.log + [evs[0].e] + Commits(evs[1..]) == c.log + Commits(evs);
      assert !evs[0].Commit? ==> Commits(evs) == Commits(evs[1..]);
    }
  }

  lemma StepLog(c: Cluster, ev: Event)
    requires Enabled(c, ev)
    ensures Step(c, ev).log == c.log + if ev.Commit? then [ev.e] else []
  {
  }

  function Applies(i: nat, n: nat): seq<Event>
    decreases n
  {
    if n == 0 then [] else [Apply(i)] + Applies(i, n - 1)
  }

  /** A replica with a complete store can always catch up: applying the entries it lacks, one by one, brings
      it to the end of the log, and then it holds the state of the log. */
  lemma {:induction false} CatchUp(c: Cluster, i: nat)
    requires Inv(c) && i < |c.nodes| && !c.nodes[i].torn && c.nodes[i].next <= |c.log|
    requires forall j :: 0 <= j < |c.log| ==> Scoped(c.log[j])
    ensures EnabledAll(c, Applies(i, |c.log| - c.nodes[i].next))
    ensures var d := Run(c, Applies(i, |c.log| - c.nodes[i].next));
            && d.log == c.log && |d.nodes| == |c.nodes| && !d.nodes[i].torn && d.nodes[i].next == |c.log|
            && State(d.nodes[i].db) == Fold(c.log, |c.log|)
    decreases |c.log| - c.nodes[i].next
  {
    hide Inv, NodeInv;
    var n := |c.log| - c.nodes[i].next;
    if n == 0 {
      AtTheEnd(c, i);
    } else {
      var evs := Applies(i, n);
      assert evs[0] == Apply(i) && evs[1..] == Applies(i, n - 1);
      StepInv(c, Apply(i));
      CatchUp(Step(c, Apply(i)), i);
    }
  }

  lemma ConvergingBounds(db: Db, log: Log, next: nat, high: nat)
    requires Converging(db, log, next, high)
    ensures next <= high <= |log|
  {
  }

  lemma AtTheEnd(c: Cluster, i: nat)
    requires Inv(c) && i < |c.nodes| && !c.nodes[i].torn && c.nodes[i].next == |c.log|
    requires forall j :: 0 <= j < |c.log| ==> Scoped(c.log[j])
    ensures State(c.nodes[i].db) == Fold(c.log, |c.log|)
  {
    hide SnapInv, Within, Converging, Fold, State, Scoped;
    assert NodeInv(c.log, c.nodes[i]);
    ConvergingBounds(c.nodes[i].db, c.log, c.nodes[i].next, c.nodes[i].high);
    CaughtUp(c.nodes[i].db, c.log, |c.log|);
  }

  /** In every run, a replica whose last restore is complete and that has applied the whole committed
      log holds exactly the state of that log; two replicas past their marks at the same entry agree. */
  lemma Convergence(c: Cluster, evs: seq<Event>, i: nat)
    requires Initial(c) && EnabledAll(c, evs) && i < |c.nodes|
    ensures var d := Run(c, evs);
            |d.nodes| == |c.nodes|
            && (!d.nodes[i].torn && d.nodes[i].next == |d.log| ==> State(d.nodes[i].db) == Fold(d.log, |d.log|))
            && (!d.nodes[i].torn && d.nodes[i].next == d.nodes[i].high
                ==> d.nodes[i].next <= |d.log| && State(d.nodes[i].db) == Fold(d.log, d.nodes[i].next))
  {
    InitialInv(c);
    RunInv(c, evs);
    RunScoped(c, evs);
    RunNodes(c, evs);
    var d := Run(c, evs);
    var n := d.nodes[i];
    if !n.torn && n.next == n.high {
      CaughtUp(n.db, d.log, n.next);
    }
  }

  /** In every run, a replica that has applied the whole committed log has at every key of the state range
      the value of the last write of that key in the log, and nothing at keys that were never written. */
  lemma CaughtUpValues(c: Cluster, evs: seq<Event>, i: nat, k: Key, p: nat, j: nat)
    requires Initial(c) && EnabledAll(c, evs) && i < |c.nodes| && IsPrefix(STATE, k)
    ensures var d := Run(c, evs);
            |d.nodes| == |c.nodes|
            && (!d.nodes[i].torn && d.nodes[i].next == |d.log| ==>
                  && (LastWrite(d.log, |d.log|, p, j, k) ==> Get(d.nodes[i].db, k) == Left(d.log[p].data.ops[j]))
                  && ((forall q: nat, m: nat :: !WritesAt(d.log, q, m, k)) ==> k !in d.nodes[i].db))
  {
    hide Inv, Step, Initial;
    Convergence(c, evs, i);
    var d := Run(c, evs);
    var n := d.nodes[i];
    if !n.torn && n.next == |d.log| {
      assert Get(n.db, k) == Get(State(n.db), k);
      if LastWrite(d.log, |d.log|, p, j, k) {
        FoldLastWriter(d.log, |d.log|, k, p, j);
      }
      if forall q: nat, m: nat :: !WritesAt(d.log, q, m, k) {
        FoldUnwritten(d.log, |d.log|, k);
      }
    }
  }

  lemma {:induction false} RunNodes(c: Cluster, evs: seq<Event>)
    requires EnabledAll(c, evs)
    ensures |Run(c, evs).nodes| == |c.nodes|
    decreases |evs|
  {
    if evs != [] {
      RunNodes(Step(c, evs[0]), evs[1..]);
    }
  }

  /** Applying the rest of the log brings any replica, however far behind, to the state of the log. */
  function ApplyRest(db: Db, log: Log, next: nat): Db
    requires next <= |log|
    decreases |log| - next
  {
    if next == |log| then db else ApplyRest(ApplyEntry(db, log[next]), log, next + 1)
  }

  lemma {:induction false} CatchingUp(db: Db, log: Log, next: nat, high: nat)
    requires Converging(db, log, next, high) && forall i :: 0 <= i < |log| ==> Scoped(log[i])
    ensures State(ApplyRest(db, log, next)) == Fold(log, |log|)
    decreases |log| - next
  {
    if next == |log| {
      CaughtUp(db, log, next);
    } else {
      ConvergingApply(db, log, next, high);
      CatchingUp(ApplyEntry(db, log[next]), log, next + 1, if next < high then high else next + 1);
    }
  }

  lemma OneOp(db: Db, op: Op)
    ensures ApplyOps(db, [op]) == ApplyOp(db, op)
  {
    assert [op][1..] == [];
    assert ApplyOps(ApplyOp(db, op), []) == ApplyOp(db, op);
  }

  lemma ThreeEvents(c: Cluster, x: Event, y: Event, z: Event)
    requires Enabled(c, x) && Enabled(Step(c, x), y) && Enabled(Step(Step(c, x), y), z)
    ensures EnabledAll(c, [x, y, z]) && Run(c, [x, y, z]) == Step(Step(Step(c, x), y), z)
  {
    assert [x, y, z][1..] == [y, z] && [y, z][1..] == [z] && [z][1..] == [];
    var d, e := Step(c, x), Step(Step(c, x), y);
    assert EnabledAll(Step(e, z), []) && Run(Step(e, z), []) == Step(e, z);
    assert EnabledAll(e, [z]) && Run(e, [z]) == Step(e, z);
    assert EnabledAll(d, [y, z]) && Run(d, [y, z]) == Step(e, z);
  }

  /** A replica below its mark can hold a state of no log prefix it has applied: after a crash without
      snapshot it starts over at entry 0 with the old state still there. */
  lemma ReplayShowsLaterState(k: Key, v: Value, db: Db)
    requires IsPrefix(STATE, k) && State(db) == map[]
    ensures var c := Cluster([], [Node(db, 0, 0, [], None, false)]);
            var evs := [Commit(LogEntry(true, Batch([Put(k, v)]))), Apply(0), Crash(0, 1)];
            Initial(c) && EnabledAll(c, evs)
            && exists n :: Run(c, evs).nodes == [n] && n.next == 0 && State(n.db) != Fold(Run(c, evs).log, 0)
  {
    var c := Cluster([], [Node(db, 0, 0, [], None, false)]);
    var e := LogEntry(true, Batch([Put(k, v)]));
    var c1 := Step(c, Commit(e));
    assert c1 == Cluster([e], c.nodes);
    OneOp(db, Put(k, v));
    var n := Node(db[k := v], 1, 1, [db], None, false);
    assert c.nodes[0].past + [db] == [db];
    assert Applied(c.nodes[0], [e]) == n;
    var c2 := Step(c1, Apply(0));
    assert c2.nodes == [n];
    var m := Node(db[k := v], 0, 1, [db], None, false);
    var c3 := Step(c2, Crash(0, 1));
    assert c3.nodes == [m];
    assert k in State(m.db);
    ThreeEvents(c, Commit(e), Apply(0), Crash(0, 1));
  }
}
