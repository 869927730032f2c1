/** The replicated log kept in the ordered store, one key per index. */
module LogStore {
  import opened Bytes
  import opened KeyValue
  import opened Keys
  import opened Wrappers

  const PREFIX: Key := [114, 97, 102, 116, 47, 108, 111, 103, 47]      // "raft/log/"
  const PREFIX_END: Key := [114, 97, 102, 116, 47, 108, 111, 103, 48]  // "raft/log0"

  function LogKey(index: nat): (k: Key)
    requires index <= MAX64
    ensures |k| == 17 && IsPrefix(PREFIX, k) && k[9..] == Be8(index)
  {
    PREFIX + Be8(index)
  }

  function IndexFromKey(k: Key): (r: Option<nat>)
    ensures r.Some? ==> r.value <= MAX64
  {
    Pow256Of8();
    if !IsPrefix(PREFIX, k) then None
    else if |k[9..]| != 8 then None
    else Some(FromBytes(k[9..]))
  }

  /** The index of a key and the key of an index are inverse to each other. */
  lemma IndexOfKey(k: Key, index: nat)
    requires index <= MAX64
    ensures IndexFromKey(k) == Some(index) <==> k == LogKey(index)
  {
    Pow256Of8();
    BytesOfNumber(index, 8);
    if IndexFromKey(k).Some? {
      NumberOfBytes(k[9..]);
      assert k == PREFIX + k[9..];
    }
  }

  lemma LogKeyOrder(i: nat, j: nat)
    requires i <= MAX64 && j <= MAX64
    ensures Less(LogKey(i), LogKey(j)) <==> i < j
  {
    LessCancel(PREFIX, Be8(i), Be8(j));
    assert Be8(i) + [] == Be8(i) && Be8(j) + [] == Be8(j);
    Be8Order(i, j, [], []);
  }

  lemma LogRange(k: Key)
    ensures InRange(k, PREFIX, Some(PREFIX_END)) <==> IsPrefix(PREFIX, k)
  {
    assert PREFIX[..8] + [48] == PREFIX_END;
    assert Upper(PREFIX) == Some(PREFIX_END);
    PrefixRangeExact(PREFIX, k);
  }

  // ---------- adding one to a big-endian number ----------

  function Inc(s: Key): (r: Key)
    ensures |r| == |s|
  {
    if s == [] then []
    else if s[|s| - 1] == 255 then Inc(s[..|s| - 1]) + [0]
    else s[..|s| - 1] + [s[|s| - 1] + 1]
  }

  lemma {:induction false} IncAddsOne(s: Key)
    ensures FromBytes(Inc(s)) == if FromBytes(s) + 1 == Pow256(|s|) then 0 else FromBytes(s) + 1
  {
    if s != [] {
      var n := |s| - 1;
      if s[n] == 255 {
        IncAddsOne(s[..n]);
        assert Inc(s)[..n] == Inc(s[..n]);
      } else {
        assert Inc(s)[..n] == s[..n];
      }
    }
  }

  /** Adding one at position `i`, with the carry running down to `from`. */
  function Carry(s: Key, from: nat, i: int): (r: Key)
    requires from - 1 <= i < |s|
    ensures |r| == |s|
    decreases i + 1 - from
  {
    if i < from then s
    else if s[i] != 255 then s[i := s[i] + 1]
    else Carry(s[i := 0], from, i - 1)
  }

  lemma CarryStep(s: Key, from: nat, i: int)
    requires from - 1 <= i < |s|
    ensures Carry(s, from, i) == if i < from then s else if s[i] != 255 then s[i := s[i] + 1]
                                 else Carry(s[i := 0], from, i - 1)
  {
  }

  lemma SetLast(p: Key, m: Key, t: Key, x: Byte)
    requires m != []
    ensures (p + m + t)[|p| + |m| - 1 := x] == p + m[..|m| - 1] + ([x] + t)
  {
  }

  lemma {:induction false} CarryIsInc(p: Key, m: Key, t: Key)
    ensures Carry(p + m + t, |p|, |p| + |m| - 1) == p + Inc(m) + t
    decreases |m|
  {
    hide Inc, Carry;
    var s, n := p + m + t, |m| - 1;
    CarryStep(s, |p|, |p| + n);
    if m == [] {
      assert Inc(m) == m;
    } else {
      assert s[|p| + n] == m[n];
      IncLast(m);
      if m[n] == 255 {
        SetLast(p, m, t, 0);
        CarryIsInc(p, m[..n], [0] + t);
        assert p + Inc(m[..n]) + ([0] + t) == p + (Inc(m[..n]) + [0]) + t;
      } else {
        SetLast(p, m, t, m[n] + 1);
        assert p + m[..n] + ([m[n] + 1] + t) == p + (m[..n] + [m[n] + 1]) + t;
      }
    }
  }

  lemma IncLast(s: Key)
    requires s != []
    ensures Inc(s) == if s[|s| - 1] == 255 then Inc(s[..|s| - 1]) + [0] else s[..|s| - 1] + [s[|s| - 1] + 1]
  {
  }

  /** The carry loop over the last bytes of a key, in place. */
  method IncrementSuffix(a: array<Byte>, from: nat)
    requires from <= a.Length
    modifies a
    ensures a[..from] == old(a[..from]) && a[from..] == Inc(old(a[from..]))
  {
    assert a[..] == a[..from] + a[from..] + [];
    CarryIsInc(a[..from], a[from..], []);
    Increment(a, from);
    assert a[..from] == a[..][..from] && a[from..] == a[..][from..];
  }

  method Increment(a: array<Byte>, from: nat)
    requires from <= a.Length
    modifies a
    ensures a[..] == Carry(old(a[..]), from, a.Length - 1)
  {
    var i := a.Length - 1;
    while i >= from
      invariant from - 1 <= i < a.Length && Carry(a[..], from, i) == Carry(old(a[..]), from, a.Length - 1)
    {
      ghost var now := a[..];
      if a[i] != 255 {
        a[i] := a[i] + 1;
        assert a[..] == now[i := now[i] + 1];
        return;
      }
      a[i] := 0;
      assert a[..] == now[i := 0];
      i := i - 1;
    }
  }

  lemma IncOfIndex(index: nat)
    requires index <= MAX64
    ensures Inc(Be8(index)) == Be8((index + 1) % (MAX64 + 1))
  {
    var b := Be8(index);
    assert FromBytes(b) == index by {
      Pow256Of8();
      BytesOfNumber(index, 8);
    }
    assert FromBytes(Inc(b)) == (index + 1) % (MAX64 + 1) by {
      Pow256Of8();
      IncAddsOne(b);
    }
    NumberOfBytes(Inc(b));
  }

  // ---------- the log as a map from index to entry ----------

  ghost function Entries(db: Db): map<nat, Value> {
    map i: nat | i <= MAX64 && LogKey(i) in db :: db[LogKey(i)]
  }

  /** Everything in the store that is not a log entry. */
  ghost function Rest(db: Db): Db {
    map k | k in db && !IsPrefix(PREFIX, k) :: db[k]
  }

  lemma PutEntry(db: Db, index: nat, v: Value)
    requires index <= MAX64
    ensures Entries(db[LogKey(index) := v]) == Entries(db)[index := v]
    ensures Rest(db[LogKey(index) := v]) == Rest(db)
  {
    forall i: nat | i <= MAX64 && LogKey(i) == LogKey(index) ensures i == index {
      IndexOfKey(LogKey(i), i);
      IndexOfKey(LogKey(i), index);
    }
  }

  datatype Entry = Entry(index: nat, data: Value)

  ghost predicate Indexed(es: seq<Entry>) {
    forall i :: 0 <= i < |es| ==> es[i].index <= MAX64
  }

  /** Entries written in order: the later of two with one index stays. */
  ghost function Stored(m: map<nat, Value>, es: seq<Entry>): map<nat, Value>
    decreases |es|
  {
    if es == [] then m else Stored(m[es[0].index := es[0].data], es[1..])
  }

  /** Deleting [min, max] removes exactly those entries, and nothing outside the log, except that
      with `max` the largest 64-bit index the end key wraps and nothing is removed. */
  lemma DropEntries(db: Db, min: nat, max: nat)
    requires min <= max <= MAX64
    ensures var d := DropRange(db, LogKey(min), Some(LogKey((max + 1) % (MAX64 + 1))));
            Entries(d) == (map i | i in Entries(db) && !(min <= i <= max && max < MAX64) :: Entries(db)[i])
            && Rest(d) == Rest(db)
  {
    RestKept(db, min, (max + 1) % (MAX64 + 1));
    EntriesDropped(db, min, max);
  }

  lemma IndexDropped(min: nat, max: nat, i: nat)
    requires min <= max <= MAX64 && i <= MAX64
    ensures InRange(LogKey(i), LogKey(min), Some(LogKey((max + 1) % (MAX64 + 1)))) <==> min <= i <= max && max < MAX64
  {
    hide LogKey;
    LogKeyOrder(i, min);
    LogKeyOrder(i, (max + 1) % (MAX64 + 1));
  }

  lemma EntriesDropped(db: Db, min: nat, max: nat)
    requires min <= max <= MAX64
    ensures var d := DropRange(db, LogKey(min), Some(LogKey((max + 1) % (MAX64 + 1))));
            Entries(d) == (map i | i in Entries(db) && !(min <= i <= max && max < MAX64) :: Entries(db)[i])
  {
    hide InRange, LogKey;
    forall i: nat | i <= MAX64
      ensures InRange(LogKey(i), LogKey(min), Some(LogKey((max + 1) % (MAX64 + 1)))) <==>
              min <= i <= max && max < MAX64
    {
      IndexDropped(min, max, i);
    }
  }

  lemma RestKept(db: Db, i: nat, j: nat)
    requires i <= MAX64 && j <= MAX64
    ensures Rest(DropRange(db, LogKey(i), Some(LogKey(j)))) == Rest(db)
  {
    hide LogKey, Less;
    forall k | InRange(k, LogKey(i), Some(LogKey(j))) ensures IsPrefix(PREFIX, k) {
      BetweenLogKeys(k, i, j);
    }
  }

  lemma BetweenLogKeys(k: Key, i: nat, j: nat)
    requires i <= MAX64 && j <= MAX64
    requires !Less(k, LogKey(i)) && Less(k, LogKey(j))
    ensures IsPrefix(PREFIX, k)
  {
    LogRange(LogKey(i));
    LogRange(LogKey(j));
    LogRange(k);
    if Less(k, PREFIX) {
      LessTotal(LogKey(i), PREFIX);
      if Less(PREFIX, LogKey(i)) {
        LessTransitive(k, PREFIX, LogKey(i));
      }
    }
    LessTransitive(k, LogKey(j), PREFIX_END);
  }

  class Log {
    var db: Db

    /** The index of the first key of a scan over the log; 0 for an empty log, `None` for a key
        that is no log key. */
    method FirstIndex(ks: seq<Key>) returns (r: Option<nat>)
      requires IsScan(db, PREFIX, Some(PREFIX_END), ks)
      ensures (forall k :: k in db && IsPrefix(PREFIX, k) ==> |k| == 17) ==> r.Some?
      ensures r.Some? && Entries(db) != map[] ==>
                r.value in Entries(db) && forall i :: i in Entries(db) ==> r.value <= i
      ensures r.Some? && Entries(db) == map[] ==> r.value == 0
    {
      if ks == [] {
        NoEntries(db, ks);
        return Some(0);
      }
      LogRange(ks[0]);
      assert ks[0] in db;
      r := IndexFromKey(ks[0]);
      if r.Some? {
        IndexOfKey(ks[0], r.value);
        assert r.value in Entries(db);
        forall i | i in Entries(db) ensures r.value <= i {
          var n := EntryScanned(db, ks, i);
          LogKeyOrder(i, r.value);
          LessAscending(ks, 0, n);
        }
      }
    }

    /** The index of the last key of a scan over the log. */
    method LastIndex(ks: seq<Key>) returns (r: Option<nat>)
      requires IsScan(db, PREFIX, Some(PREFIX_END), ks)
      ensures (forall k :: k in db && IsPrefix(PREFIX, k) ==> |k| == 17) ==> r.Some?
      ensures r.Some? && Entries(db) != map[] ==>
                r.value in Entries(db) && forall i :: i in Entries(db) ==> i <= r.value
      ensures r.Some? && Entries(db) == map[] ==> r.value == 0
    {
      if ks == [] {
        NoEntries(db, ks);
        return Some(0);
      }
      var last := ks[|ks| - 1];
      LogRange(last);
      assert last in ks;
      assert last in db;
      r := IndexFromKey(last);
      if r.Some? {
        IndexOfKey(last, r.value);
        assert r.value in Entries(db);
        forall i | i in Entries(db) ensures i <= r.value {
          var n := EntryScanned(db, ks, i);
          LogKeyOrder(r.value, i);
          LessAscending(ks, n, |ks| - 1);
        }
      }
    }

    /** The entry at an index; `None` is the not-found sentinel. */
    method GetLog(index: nat) returns (v: Option<Value>)
      requires index <= MAX64
      ensures v == if index in Entries(db) then Some(Entries(db)[index]) else None
    {
      v := if LogKey(index) in db then Some(db[LogKey(index)]) else None;
    }

    /** Stores a batch of entries in one write. */
    method StoreLogs(es: seq<Entry>)
      requires Indexed(es)
      modifies this
      ensures Entries(db) == Stored(old(Entries(db)), es)
      ensures Rest(db) == old(Rest(db))
    {
      var batch := db;
      var i := 0;
      while i < |es|
        invariant 0 <= i <= |es| && db == old(db)
        invariant Stored(Entries(batch), es[i..]) == Stored(Entries(db), es)
        invariant Rest(batch) == Rest(db)
      {
        PutEntry(batch, es[i].index, es[i].data);
        assert es[i..][1..] == es[i + 1..];
        batch := batch[LogKey(es[i].index) := es[i].data];
        i := i + 1;
      }
      assert es[i..] == [];
      db := batch;
    }

    /** Removes the entries of [min, max]. */
    method DeleteRange(min: nat, max: nat) returns (ok: bool)
      requires min <= MAX64 && max <= MAX64
      modifies this
      ensures ok <==> min <= max
      ensures !ok ==> db == old(db)
      ensures ok ==> Entries(db) == map i | i in old(Entries(db)) && !(min <= i <= max && max < MAX64)
                                     :: old(Entries(db))[i]
      ensures Rest(db) == old(Rest(db))
    {
      if min > max {
        return false;
      }
      var end := LogKey(max);
      var a := new Byte[|end|](i requires 0 <= i < |end| => end[i]);
      assert a[..] == end && a[..9] == PREFIX && a[9..] == Be8(max);
      IncrementSuffix(a, 9);
      IncOfIndex(max);
      assert a[..] == a[..9] + a[9..];
      DropEntries(db, min, max);
      db := DropRange(db, LogKey(min), Some(a[..]));
      return true;
    }
  }

  lemma NoEntries(db: Db, ks: seq<Key>)
    requires IsScan(db, PREFIX, Some(PREFIX_END), ks) && ks == []
    ensures Entries(db) == map[]
  {
    forall i: nat | i <= MAX64 ensures LogKey(i) !in db {
      LogRange(LogKey(i));
      assert LogKey(i) !in ks;
    }
  }

  lemma EntryScanned(db: Db, ks: seq<Key>, i: nat) returns (n: nat)
    requires IsScan(db, PREFIX, Some(PREFIX_END), ks) && i in Entries(db)
    ensures n < |ks| && ks[n] == LogKey(i)
  {
    LogRange(LogKey(i));
    assert LogKey(i) in ks;
    n :| 0 <= n < |ks| && ks[n] == LogKey(i);
  }

  lemma LessAscending(ks: seq<Key>, i: nat, j: nat)
    requires Ascending(ks) && i <= j < |ks|
    ensures !Less(ks[j], ks[i])
  {
    LessIrreflexive(ks[i]);
    if i < j {
      LessAsymmetric(ks[i], ks[j]);
    }
  }
}
