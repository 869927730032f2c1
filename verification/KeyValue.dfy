/** The ordered byte-keyed store under codeq: one value per key, atomic batches, range scans
    and range deletes. */
module KeyValue {
  import opened Bytes
  import opened Wrappers

  type Value = seq<Byte>
  type Db = map<Key, Value>

  datatype Op = Put(key: Key, value: Value) | Del(key: Key)

  function ApplyOp(db: Db, op: Op): Db {
    match op
    case Put(k, v) => db[k := v]
    case Del(k) => db - {k}
  }

  /** A committed batch: its operations in order. */
  function ApplyOps(db: Db, ops: seq<Op>): Db
    decreases |ops|
  {
    if ops == [] then db else ApplyOps(ApplyOp(db, ops[0]), ops[1..])
  }

  lemma {:induction false} ApplyConcat(db: Db, a: seq<Op>, b: seq<Op>)
    ensures ApplyOps(db, a + b) == ApplyOps(ApplyOps(db, a), b)
    decreases |a|
  {
    if a == [] {
      assert a + b == b;
    } else {
      assert (a + b)[1..] == a[1..] + b;
      ApplyConcat(ApplyOp(db, a[0]), a[1..], b);
    }
  }

  /** The last writer wins: after a batch a key has the value of the last put on it, is absent if a delete
      comes last, and is as before if nothing in the batch is about it. */
  ghost predicate LastWriterWins(db: Db, ops: seq<Op>, r: Db) {
    && (forall k :: (forall i :: 0 <= i < |ops| ==> ops[i].key != k) ==>
          (k in r <==> k in db) && (k in r ==> r[k] == db[k]))
    && (forall i :: 0 <= i < |ops| && (forall j :: i < j < |ops| ==> ops[j].key != ops[i].key) ==>
          match ops[i]
          case Put(k, v) => k in r && r[k] == v
          case Del(k) => k !in r)
  }

  lemma {:induction false} BatchLastWriter(db: Db, ops: seq<Op>)
    ensures LastWriterWins(db, ops, ApplyOps(db, ops))
    decreases |ops|
  {
    if ops != [] {
      var rest := ops[1..];
      var d := ApplyOp(db, ops[0]);
      BatchLastWriter(d, rest);
      assert forall i :: 0 <= i < |rest| ==> rest[i] == ops[i + 1];
      assert forall i :: 1 <= i < |ops| ==> ops[i] == rest[i - 1];
    }
  }

  /** Keys from `lo` up to, not including, `hi`; no `hi` means to the end. */
  predicate InRange(k: Key, lo: Key, hi: Option<Key>) {
    !Less(k, lo) && (hi.Some? ==> Less(k, hi.value))
  }

  function DropRange(db: Db, lo: Key, hi: Option<Key>): Db {
    map k | k in db && !InRange(k, lo, hi) :: db[k]
  }

  ghost predicate Ascending(ks: seq<Key>) {
    forall i, j :: 0 <= i < j < |ks| ==> Less(ks[i], ks[j])
  }

  /** What an iterator over [lo, hi) visits: exactly the stored keys of the range, in order. */
  ghost predicate IsScan(db: Db, lo: Key, hi: Option<Key>, ks: seq<Key>) {
    Ascending(ks) && forall k :: k in ks <==> k in db && InRange(k, lo, hi)
  }
}
