/** The snapshot stream of the replicated state: every key under "codeq/" and its value. */
module Snapshot {
  import opened Bytes
  import opened KeyValue
  import opened Keys
  import opened Wrappers

  const MAGIC: Key := [67, 68, 81, 83]                       // "CDQS"
  const VERSION: nat := 1
  const TAG_ENTRY: Byte := 1
  const TAG_EOF: Byte := 0
  const STATE: Key := [99, 111, 100, 101, 113, 47]           // "codeq/"
  const STATE_END: Key := [99, 111, 100, 101, 113, 48]       // "codeq0"
  const MAX32 := 0xFFFF_FFFF
  const FLUSH_EVERY := 1024

  type Entry = o: Op | o.Put? && |o.key| <= MAX32 && |o.value| <= MAX32 witness Put([], [])

  function Be4(n: nat): (r: Key)
    requires n <= MAX32
    ensures |r| == 4
  {
    Pow256Of4();
    BigEndian(n, 4)
  }

  function Num4(b: Key): (n: nat)
    requires |b| == 4
    ensures n <= MAX32
  {
    Pow256Of4();
    FromBytes(b)
  }

  lemma Num4OfBe4(n: nat)
    requires n <= MAX32
    ensures Num4(Be4(n)) == n
  {
    Pow256Of4();
    BytesOfNumber(n, 4);
  }

  lemma Be4OfNum4(b: Key)
    requires |b| == 4
    ensures Be4(Num4(b)) == b
  {
    Pow256Of4();
    NumberOfBytes(b);
  }

  /** Length and bytes of one field. */
  function Field(x: Key): (r: Key)
    requires |x| <= MAX32
    ensures |r| == 4 + |x|
  {
    Be4(|x|) + x
  }

  function EntryBytes(e: Entry): Key {
    [TAG_ENTRY] + (Field(e.key) + Field(e.value))
  }

  function Body(es: seq<Entry>): Key {
    if es == [] then [TAG_EOF] else EntryBytes(es[0]) + Body(es[1..])
  }

  function Encode(es: seq<Entry>): Key {
    MAGIC + Be4(VERSION) + Body(es)
  }

  // ---------- reading ----------

  /** One length-prefixed field at the front of `b`: its bytes, or `None` when `b` is too short. */
  function TakeField(b: Key): (r: Option<Key>)
    ensures r.Some? ==> |r.value| <= MAX32 && 4 + |r.value| <= |b|
  {
    if |b| < 4 then None
    else
      var n := Num4(b[..4]);
      if |b| < 4 + n then None else Some(b[4..4 + n])
  }

  datatype Token = Eof | Bad | Got(entry: Entry, size: nat)

  /** The next token of the stream. */
  function NextToken(b: Key): (r: Token)
    ensures r.Got? ==> 0 < r.size <= |b|
  {
    if b == [] then Bad
    else if b[0] == TAG_EOF then Eof
    else if b[0] != TAG_ENTRY then Bad
    else
      var k := TakeField(b[1..]);
      if k.None? then Bad
      else
        var v := TakeField(b[5 + |k.value|..]);
        if v.None? then Bad else Got(Put(k.value, v.value), 9 + |k.value| + |v.value|)
  }

  datatype Parsed = Parsed(entries: seq<Entry>, ok: bool)

  /** All entries up to the end tag, or up to the first malformed token. */
  function Parse(b: Key): Parsed {
    match NextToken(b)
    case Eof => Parsed([], true)
    case Bad => Parsed([], false)
    case Got(e, n) => var p := Parse(b[n..]); Parsed([e] + p.entries, p.ok)
  }

  lemma TakeFieldIff(b: Key, x: Key)
    requires |x| <= MAX32
    ensures TakeField(b) == Some(x) <==> IsPrefix(Field(x), b)
  {
    Num4OfBe4(|x|);
    if TakeField(b) == Some(x) {
      Be4OfNum4(b[..4]);
      assert b[..4 + |x|] == b[..4] + b[4..4 + |x|];
    }
    if IsPrefix(Field(x), b) {
      assert b[..4] == Field(x)[..4] == Be4(|x|);
      assert b[4..4 + |x|] == Field(x)[4..];
    }
  }

  /** The next token is an entry exactly when the stream starts with that entry's bytes. */
  lemma NextTokenIff(b: Key, e: Entry)
    ensures NextToken(b) == Got(e, |EntryBytes(e)|) <==> IsPrefix(EntryBytes(e), b)
  {
    if b != [] && b[0] == TAG_ENTRY {
      TakeFieldIff(b[1..], e.key);
      if IsPrefix(Field(e.key), b[1..]) {
        TakeFieldIff(b[5 + |e.key|..], e.value);
      }
    }
  }

  lemma PrefixOfConcat(p: Key, a: Key, b: Key)
    ensures IsPrefix(p + a, p + b) <==> IsPrefix(a, b)
  {
    if IsPrefix(p + a, p + b) {
      DropCommon(p, a, b);
    }
  }

  /** A written body is read back to its end, whatever comes after it. */
  lemma {:induction false} ParseComplete(es: seq<Entry>, tail: Key)
    ensures Parse(Body(es) + tail) == Parsed(es, true)
  {
    var b := Body(es) + tail;
    if es != [] {
      var e := es[0];
      NextTokenIff(b, e);
      assert b == EntryBytes(e) + (Body(es[1..]) + tail);
      assert b[|EntryBytes(e)|..] == Body(es[1..]) + tail;
      ParseComplete(es[1..], tail);
    }
  }

  /** A stream that is read to its end starts with the body of the entries read. */
  lemma {:induction false} ParseSound(b: Key)
    requires Parse(b).ok
    ensures IsPrefix(Body(Parse(b).entries), b)
    decreases |b|
  {
    match NextToken(b) {
      case Eof => assert Body([]) == [TAG_EOF];
      case Got(e, n) =>
        ParseSound(b[n..]);
        NextTokenIff(b, e);
        assert b == EntryBytes(e) + b[n..];
        var p := Parse(b[n..]);
        assert ([e] + p.entries)[1..] == p.entries;
        PrefixOfConcat(EntryBytes(e), Body(p.entries), b[n..]);
      case Bad =>
    }
  }

  /** No body continues another. */
  lemma BodyUnambiguous(es: seq<Entry>, fs: seq<Entry>, tail: Key)
    requires Body(es) == Body(fs) + tail
    ensures tail == []
  {
    ParseComplete(fs, tail);
    assert Body(es) + [] == Body(es);
    ParseComplete(es, []);
  }

  lemma SplitAtPrefix(p: Key, b: Key, n: nat)
    requires n <= |b| && IsPrefix(p, b[..n])
    ensures |p| <= n && b == p + b[|p|..]
  {
  }

  lemma BodyTruncated(es: seq<Entry>, n: nat)
    requires n < |Body(es)|
    ensures !Parse(Body(es)[..n]).ok
  {
    var b := Body(es);
    if Parse(b[..n]).ok {
      var fs := Parse(b[..n]).entries;
      ParseSound(b[..n]);
      SplitAtPrefix(Body(fs), b, n);
      BodyUnambiguous(es, fs, b[|Body(fs)|..]);
    }
  }

  // ---------- what reading does to the store ----------

  predicate GoodHeader(b: Key) {
    |b| >= 8 && b[..4] == MAGIC && Num4(b[4..8]) == VERSION
  }

  /** The reader reaches the end tag without an error. */
  predicate Accepted(b: Key) {
    GoodHeader(b) && Parse(b[8..]).ok
  }

  function Wiped(db: Db): Db {
    DropRange(db, STATE, Some(STATE_END))
  }

  /** A malformed stream leaves the wiped state and the full batches that came before the fault. */
  function Applied(p: Parsed): seq<Op> {
    if p.ok then p.entries else p.entries[..|p.entries| / FLUSH_EVERY * FLUSH_EVERY]
  }

  function Restored(b: Key, db: Db): Db {
    if !GoodHeader(b) then db else ApplyOps(Wiped(db), Applied(Parse(b[8..])))
  }

  /** The replicated part of a store, and the rest. */
  function State(db: Db): Db {
    map k | k in db && IsPrefix(STATE, k) :: db[k]
  }

  function Outside(db: Db): Db {
    map k | k in db && !IsPrefix(STATE, k) :: db[k]
  }

  lemma StateRange(k: Key)
    ensures InRange(k, STATE, Some(STATE_END)) <==> IsPrefix(STATE, k)
  {
    assert STATE[..5] + [48] == STATE_END;
    assert Upper(STATE) == Some(STATE_END);
    PrefixRangeExact(STATE, k);
  }

  lemma WipedIsOutside(db: Db)
    ensures Wiped(db) == Outside(db)
  {
    forall k ensures InRange(k, STATE, Some(STATE_END)) <==> IsPrefix(STATE, k) {
      StateRange(k);
    }
  }

  /** The entries of a snapshot taken with a scan of the state range. */
  function EntriesOf(db: Db, ks: seq<Key>): (es: seq<Entry>)
    requires forall i :: 0 <= i < |ks| ==> ks[i] in db && |ks[i]| <= MAX32 && |db[ks[i]]| <= MAX32
    ensures |es| == |ks| && forall i :: 0 <= i < |ks| ==> es[i] == Put(ks[i], db[ks[i]])
  {
    if ks == [] then [] else [Put(ks[0], db[ks[0]])] + EntriesOf(db, ks[1..])
  }

  /** Writing entries taken from `src` copies exactly their keys. */
  lemma {:induction false} CopyEntries(db: Db, src: Db, es: seq<Op>, k: Key)
    requires forall i :: 0 <= i < |es| ==> es[i].Put? && es[i].key in src && es[i].value == src[es[i].key]
    ensures var r := ApplyOps(db, es); var hit := exists i :: 0 <= i < |es| && es[i].key == k;
            (k in r <==> k in db || hit) && (k in r ==> r[k] == if hit then src[k] else db[k])
    decreases |es|
  {
    if es != [] {
      var d := ApplyOp(db, es[0]);
      CopyEntries(d, src, es[1..], k);
      assert forall i :: 1 <= i < |es| ==> es[1..][i - 1] == es[i];
      assert forall i :: 0 <= i < |es[1..]| ==> es[1..][i] == es[i + 1];
    }
  }

  predicate Fits(db: Db, ks: seq<Key>) {
    forall i :: 0 <= i < |ks| && ks[i] in db ==> |ks[i]| <= MAX32 && |db[ks[i]]| <= MAX32
  }

  /** A snapshot written from `src` and read into any store gives that store the state of `src`
      and leaves everything outside the state range alone. */
  lemma RoundTrip(src: Db, ks: seq<Key>, db: Db)
    requires IsScan(src, STATE, Some(STATE_END), ks) && Fits(src, ks)
    requires forall i :: 0 <= i < |ks| ==> ks[i] in src
    ensures var r := Restored(Encode(EntriesOf(src, ks)), db);
            State(r) == State(src) && Outside(r) == Outside(db)
  {
    RestoredOfEncode(EntriesOf(src, ks), db);
    CopyState(src, ks, db);
  }

  lemma RestoredOfEncode(es: seq<Entry>, db: Db)
    ensures Restored(Encode(es), db) == ApplyOps(Outside(db), es)
  {
    HeaderOk(es);
    assert Body(es) + [] == Body(es);
    ParseComplete(es, []);
    WipedIsOutside(db);
  }

  lemma CopyState(src: Db, ks: seq<Key>, db: Db)
    requires IsScan(src, STATE, Some(STATE_END), ks) && Fits(src, ks)
    requires forall i :: 0 <= i < |ks| ==> ks[i] in src
    ensures var r := ApplyOps(Outside(db), EntriesOf(src, ks));
            State(r) == State(src) && Outside(r) == Outside(db)
  {
    var es := EntriesOf(src, ks);
    var r := ApplyOps(Outside(db), es);
    forall k
      ensures k in r <==> (if IsPrefix(STATE, k) then k in src else k in db)
      ensures k in r ==> r[k] == if IsPrefix(STATE, k) then src[k] else db[k]
    {
      StateRange(k);
      CopyEntries(Outside(db), src, es, k);
    }
  }

  lemma HeaderOk(es: seq<Entry>)
    ensures GoodHeader(Encode(es)) && Encode(es)[8..] == Body(es)
  {
    Num4OfBe4(VERSION);
    var b := Encode(es);
    assert b[4..8] == Be4(VERSION);
  }

  lemma WrittenAccepted(es: seq<Entry>, tail: Key)
    ensures Accepted(Encode(es) + tail)
  {
    HeaderOk(es);
    var b := Encode(es) + tail;
    assert b[..4] == Encode(es)[..4] && b[4..8] == Encode(es)[4..8];
    assert b[8..] == Body(es) + tail;
    ParseComplete(es, tail);
  }

  lemma AcceptedWritten(b: Key)
    requires Accepted(b)
    ensures IsPrefix(Encode(Parse(b[8..]).entries), b)
  {
    var es := Parse(b[8..]).entries;
    ParseSound(b[8..]);
    Be4OfNum4(b[4..8]);
    assert b == MAGIC + Be4(VERSION) + b[8..];
  }

  /** Exactly the streams that start with a written snapshot are accepted. */
  lemma AcceptedIff(b: Key)
    ensures Accepted(b) <==> exists es :: IsPrefix(Encode(es), b)
  {
    if Accepted(b) {
      AcceptedWritten(b);
    }
    if es :| IsPrefix(Encode(es), b) {
      assert b == Encode(es) + b[|Encode(es)|..];
      WrittenAccepted(es, b[|Encode(es)|..]);
    }
  }

  /** A snapshot cut short anywhere, its header included, is not accepted. */
  lemma TruncationRejected(es: seq<Entry>, n: nat)
    requires n < |Encode(es)|
    ensures !Accepted(Encode(es)[..n])
  {
    HeaderOk(es);
    if n >= 8 {
      assert Encode(es)[..n][8..] == Body(es)[..n - 8];
      BodyTruncated(es, n - 8);
    }
  }

  // ---------- the two procedures ----------

  /** The body of a stream along `ks`, unless a key or a value is too long. */
  function Streamed(db: Db, ks: seq<Key>): Option<Key>
    requires forall i :: 0 <= i < |ks| ==> ks[i] in db
  {
    if ks == [] then Some([TAG_EOF])
    else if |ks[0]| > MAX32 || |db[ks[0]]| > MAX32 then None
    else
      var r := Streamed(db, ks[1..]);
      if r.None? then None else Some(EntryBytes(Put(ks[0], db[ks[0]])) + r.value)
  }

  lemma {:induction false} StreamedIs(db: Db, ks: seq<Key>)
    requires forall i :: 0 <= i < |ks| ==> ks[i] in db
    ensures Streamed(db, ks).Some? <==> Fits(db, ks)
    ensures Fits(db, ks) ==> Streamed(db, ks).value == Body(EntriesOf(db, ks))
  {
    if ks != [] {
      StreamedIs(db, ks[1..]);
      assert forall i :: 0 <= i < |ks[1..]| ==> ks[1..][i] == ks[i + 1];
      if Fits(db, ks) {
        assert EntriesOf(db, ks)[1..] == EntriesOf(db, ks[1..]);
      }
    }
  }

  /** Streams the state out along a scan of its range; fails when a key or a value is too long. */
  method WriteSnapshot(db: Db, ks: seq<Key>) returns (out: Option<Key>)
    requires IsScan(db, STATE, Some(STATE_END), ks)
    requires forall i :: 0 <= i < |ks| ==> ks[i] in db
    ensures out.Some? <==> Fits(db, ks)
    ensures out.Some? ==> out.value == Encode(EntriesOf(db, ks))
  {
    StreamedIs(db, ks);
    var body := WriteEntries(db, ks);
    out := if body.None? then None else Some(MAGIC + Be4(VERSION) + body.value);
  }

  method WriteEntries(db: Db, ks: seq<Key>) returns (out: Option<Key>)
    requires forall i :: 0 <= i < |ks| ==> ks[i] in db
    ensures out == Streamed(db, ks)
  {
    var w: Key := [];
    var i := 0;
    assert ks[0..] == ks;
    assert Streamed(db, ks).Some? ==> [] + Streamed(db, ks).value == Streamed(db, ks).value;
    while i < |ks|
      invariant 0 <= i <= |ks|
      invariant Streamed(db, ks) == Extend(w, Streamed(db, ks[i..]))
    {
      assert ks[i..][1..] == ks[i + 1..];
      var k, v := ks[i], db[ks[i]];
      if |k| > MAX32 || |v| > MAX32 {
        return None;
      }
      var e := EntryBytes(Put(k, v));
      ExtendMore(w, e, Streamed(db, ks[i + 1..]));
      w := w + e;
      i := i + 1;
    }
    return Some(w + [TAG_EOF]);
  }

  function Extend(w: Key, r: Option<Key>): Option<Key> {
    if r.None? then None else Some(w + r.value)
  }

  lemma ExtendMore(w: Key, e: Key, r: Option<Key>)
    ensures Extend(w, if r.None? then None else Some(e + r.value)) == Extend(w + e, r)
  {
    if r.Some? {
      assert w + (e + r.value) == w + e + r.value;
    }
  }

  lemma FlushBatch(db: Db, done: seq<Op>, m: nat)
    requires m <= |done|
    ensures ApplyOps(ApplyOps(db, done[..m]), done[m..]) == ApplyOps(db, done)
  {
    ApplyConcat(db, done[..m], done[m..]);
    assert done == done[..m] + done[m..];
  }

  /** The full batches of `done` are written; `batch` is what follows them. */
  ghost predicate Loaded(w: Db, db: Db, done: seq<Entry>, batch: seq<Op>) {
    && |batch| < FLUSH_EVERY && |batch| <= |done|
    && done[|done| - |batch|..] == batch && (|done| - |batch|) % FLUSH_EVERY == 0
    && db == ApplyOps(w, done[..|done| - |batch|])
  }

  lemma LoadedAtEnd(w: Db, db: Db, done: seq<Entry>, batch: seq<Op>, ok: bool)
    requires Loaded(w, db, done, batch)
    ensures (if ok then ApplyOps(db, batch) else db) == ApplyOps(w, Applied(Parsed(done, ok)))
  {
    FlushBatch(w, done, |done| - |batch|);
    FullBatches(|done|, |batch|);
  }

  lemma FullBatches(n: nat, k: nat)
    requires k <= n && k < FLUSH_EVERY && (n - k) % FLUSH_EVERY == 0
    ensures n / FLUSH_EVERY * FLUSH_EVERY == n - k
  {
  }

  class Replica {
    var db: Db

    /** Adds one entry to the batch and commits the batch when it is full. */
    method Stage(e: Entry, batch: seq<Op>, ghost w: Db, ghost done: seq<Entry>) returns (next: seq<Op>)
      requires Loaded(w, db, done, batch)
      modifies this
      ensures Loaded(w, db, done + [e], next)
    {
      ghost var m, all := |done| - |batch|, done + [e];
      assert all[..m] == done[..m] && all[m..] == batch + [e];
      next := batch + [e];
      if |next| >= FLUSH_EVERY {
        FlushBatch(w, all, m);
        assert all[..|all|] == all;
        db := ApplyOps(db, next);
        next := [];
      }
    }

    /** Reads entries until the end tag or the first fault. */
    method ReadEntries(b: Key) returns (ok: bool)
      modifies this
      ensures ok == Parse(b).ok
      ensures db == ApplyOps(old(db), Applied(Parse(b)))
    {
      hide NextToken;
      var rest := b;
      var batch: seq<Op> := [];
      ghost var done: seq<Entry> := [];
      while NextToken(rest).Got?
        invariant Parse(b) == Parsed(done + Parse(rest).entries, Parse(rest).ok)
        invariant Loaded(old(db), db, done, batch)
        decreases |rest|
      {
        var t := NextToken(rest);
        assert done + ([t.entry] + Parse(rest[t.size..]).entries) == (done + [t.entry]) + Parse(rest[t.size..]).entries;
        batch := Stage(t.entry, batch, old(db), done);
        done := done + [t.entry];
        rest := rest[t.size..];
      }
      assert done + [] == done;
      ok := NextToken(rest).Eof?;
      LoadedAtEnd(old(db), db, done, batch, ok);
      if ok && |batch| > 0 {
        db := ApplyOps(db, batch);
      }
    }

    /** Replaces the state by the entries of a snapshot stream. A bad header changes nothing; a
        stream that turns out malformed leaves the state wiped, with only the full batches
        read before the fault. */
    method ReadSnapshot(b: Key) returns (ok: bool)
      modifies this
      ensures ok <==> Accepted(b)
      ensures !GoodHeader(b) ==> db == old(db)
      ensures GoodHeader(b) ==>
                var es := Parse(b[8..]).entries;
                db == ApplyOps(Outside(old(db)), if ok then es else es[..|es| - |es| % 1024])
      ensures db == Restored(b, old(db))
    {
      if |b| < 4 || b[..4] != MAGIC || |b| < 8 || Num4(b[4..8]) != VERSION {
        return false;
      }
      WipedIsOutside(db);
      db := Wiped(db);
      ok := ReadEntries(b[8..]);
    }
  }
}
