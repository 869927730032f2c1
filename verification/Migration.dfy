/** Moving the queues of a command from one shard to another, and checking the move. */
module Migration {
  import opened Sequences

  type Id = nat

  /** Task bodies are only copied; `EMPTY` is the empty string. */
  type Json = nat
  const EMPTY: Json := 0

  const DEFAULT_BATCH := 1000
  const PRIORITIES := 10

  function Batch(size: int): (b: nat)
    ensures b >= 1 && (size > 0 ==> b == size)
  {
    if size <= 0 then DEFAULT_BATCH else size
  }

  // ---------- what moving a list does to its order ----------

  /** The right-end chunks of a list, rightmost first, each chunk in its own order. */
  function Chunks(s: seq<Id>, b: nat): (r: seq<Id>)
    requires b >= 1
    ensures |r| == |s|
  {
    if s == [] then []
    else
      var n := |s| - Least(b, |s|);
      s[n..] + Chunks(s[..n], b)
  }

  lemma {:induction false} ChunksKeep(s: seq<Id>, b: nat)
    requires b >= 1
    ensures multiset(Chunks(s, b)) == multiset(s)
  {
    if s != [] {
      var n := |s| - Least(b, |s|);
      ChunksKeep(s[..n], b);
      assert s == s[..n] + s[n..];
    }
  }

  /** Moving a list loses nothing and doubles nothing. */
  lemma ListConserved(dst: seq<Id>, src: seq<Id>, b: nat)
    requires b >= 1
    ensures multiset(dst + Chunks(src, b)) == multiset(dst) + multiset(src)
  {
    ChunksKeep(src, b);
  }

  /** Where an id of a moved list comes from: the chunks are taken from the right end, each in its order. */
  lemma {:induction false} ChunkPosition(s: seq<Id>, b: nat, i: nat)
    requires b >= 1 && i < |s|
    ensures i < b ==> Chunks(s, b)[i] == s[(if |s| <= b then 0 else |s| - b) + i]
    ensures i >= b ==> |s| > b && Chunks(s, b)[i] == Chunks(s[..|s| - b], b)[i - b]
  {
    var n := |s| - Least(b, |s|);
    if i >= b {
      assert Chunks(s, b)[i] == Chunks(s[..n], b)[i - b];
    }
  }

  /** A list of distinct ids keeps its order exactly when one batch takes all of it. */
  lemma ChunksInOrder(s: seq<Id>, b: nat)
    requires b >= 1 && NoRepeats(s)
    ensures Chunks(s, b) == s <==> |s| <= b
  {
    if s != [] {
      var n := |s| - Least(b, |s|);
      if n == 0 {
        assert s[..0] == [] && s[0..] == s;
      } else {
        assert Chunks(s, b)[0] == s[n];
      }
    }
  }

  // ---------- copying task data ----------

  /** Task bodies and retention scores on one server. */
  datatype Data = Data(tasks: map<Id, Json>, ttl: map<Id, int>)

  predicate HasBody(d: Data, id: Id) {
    id in d.tasks && d.tasks[id] != EMPTY
  }

  /** The body of one task comes over if there is one, with its retention score if that is positive. */
  function CopyOne(to: Data, from: Data, id: Id): Data {
    if !HasBody(from, id) then to
    else Data(to.tasks[id := from.tasks[id]],
              if id in from.ttl && from.ttl[id] > 0 then to.ttl[id := from.ttl[id]] else to.ttl)
  }

  function CopyData(to: Data, from: Data, ids: seq<Id>): Data
    decreases |ids|
  {
    if ids == [] then to else CopyData(CopyOne(to, from, ids[0]), from, ids[1..])
  }

  lemma {:induction false} CopyConcat(to: Data, from: Data, a: seq<Id>, b: seq<Id>)
    ensures CopyData(CopyData(to, from, a), from, b) == CopyData(to, from, a + b)
    decreases |a|
  {
    if a == [] {
      assert a + b == b;
    } else {
      CopyConcat(CopyOne(to, from, a[0]), from, a[1..], b);
      assert (a + b)[1..] == a[1..] + b;
    }
  }

  lemma {:induction false} CopySelf(d: Data, ids: seq<Id>)
    ensures CopyData(d, d, ids) == d
    decreases |ids|
  {
    if ids != [] {
      assert HasBody(d, ids[0]) ==> d.tasks[ids[0] := d.tasks[ids[0]]] == d.tasks;
      assert ids[0] in d.ttl ==> d.ttl[ids[0] := d.ttl[ids[0]]] == d.ttl;
      CopySelf(d, ids[1..]);
    }
  }

  /** After a copy the destination has the source's body and positive score for every copied id that
      has a body, and what it had before for every other id. */
  lemma {:induction false} CopyMeaning(to: Data, from: Data, ids: seq<Id>, id: Id)
    ensures var r := CopyData(to, from, ids); var hit := id in ids && HasBody(from, id);
            && (id in r.tasks <==> id in to.tasks || hit)
            && (id in r.tasks ==> r.tasks[id] == if hit then from.tasks[id] else to.tasks[id])
            && var timed := hit && id in from.ttl && from.ttl[id] > 0;
               (id in r.ttl <==> id in to.ttl || timed)
               && (id in r.ttl ==> r.ttl[id] == if timed then from.ttl[id] else to.ttl[id])
    decreases |ids|
  {
    if ids != [] {
      CopyMeaning(CopyOne(to, from, ids[0]), from, ids[1..], id);
      assert id in ids <==> id == ids[0] || id in ids[1..];
    }
  }

  // ---------- the keys of the servers ----------

  class Server {
    var data: Data
  }

  /** The pending lists of a command on one shard, one key per priority. */
  class Lists {
    var at: seq<seq<Id>>
  }

  class ZSet {
    var scores: map<Id, int>
  }

  class Set {
    var members: set<Id>
  }

  /** Copies the data of `ids`; source and destination may be one server. */
  method CopyTaskData(from: Server, to: Server, ids: seq<Id>)
    modifies to
    ensures to.data == CopyData(old(to.data), old(from.data), ids) && from.data == old(from.data)
  {
    var read := from.data;
    var i := 0;
    assert ids[0..] == ids;
    while i < |ids|
      invariant 0 <= i <= |ids|
      invariant CopyData(to.data, read, ids[i..]) == CopyData(old(to.data), read, ids)
      invariant from != to ==> from.data == read
    {
      var id := ids[i];
      assert ids[i..][1..] == ids[i + 1..];
      if id in read.tasks && read.tasks[id] != EMPTY {
        to.data := to.data.(tasks := to.data.tasks[id := read.tasks[id]]);
        if id in read.ttl && read.ttl[id] > 0 {
          to.data := to.data.(ttl := to.data.ttl[id := read.ttl[id]]);
        }
      }
      i := i + 1;
    }
    CopySelf(read, ids);
  }

  // ---------- lists ----------

  method PopRight(l: Lists, pri: nat, n: nat)
    requires pri < |l.at| && n <= |l.at[pri]|
    modifies l
    ensures l.at == old(l.at)[pri := old(l.at)[pri][..|old(l.at)[pri]| - n]]
  {
    var k := 0;
    ghost var was := l.at[pri];
    assert was[..|was|] == was;
    while k < n
      invariant 0 <= k <= n && |l.at| == |old(l.at)| && l.at == old(l.at)[pri := was[..|was| - k]]
    {
      assert was[..|was| - k][..|was| - k - 1] == was[..|was| - k - 1];
      l.at := l.at[pri := l.at[pri][..|l.at[pri]| - 1]];
      k := k + 1;
    }
  }

  /** One batch: the rightmost `n` ids are copied, appended to the destination and popped. On one and
      the same list this changes nothing. */
  method MoveRight(src: Lists, dst: Lists, from: Server, to: Server, pri: nat, n: nat)
    requires pri < |src.at| && pri < |dst.at| && n <= |src.at[pri]|
    modifies src, dst, to
    ensures var s := old(src.at)[pri]; var m := |s| - n;
            && (src != dst ==>
                  src.at == old(src.at)[pri := s[..m]] && dst.at == old(dst.at)[pri := old(dst.at)[pri] + s[m..]])
            && (src == dst ==> src.at == old(src.at))
            && to.data == CopyData(old(to.data), old(from.data), s[m..]) && from.data == old(from.data)
  {
    var ids := src.at[pri][|src.at[pri]| - n..];
    CopyTaskData(from, to, ids);
    dst.at := dst.at[pri := dst.at[pri] + ids];
    PopRight(src, pri, |ids|);
  }

  lemma ListBatch(s: seq<Id>, b: nat, there: seq<Id>, to: Data, from: Data)
    requires b >= 1 && s != []
    ensures var m := |s| - Least(b, |s|);
            there + s[m..] + Chunks(s[..m], b) == there + Chunks(s, b)
            && CopyData(CopyData(to, from, s[m..]), from, Chunks(s[..m], b)) == CopyData(to, from, Chunks(s, b))
  {
    var m := |s| - Least(b, |s|);
    CopyConcat(to, from, s[m..], Chunks(s[..m], b));
  }

  /** Moves a whole list in batches from its right end; a dry run only counts. */
  method MigrateList(src: Lists, dst: Lists, from: Server, to: Server, pri: nat, size: int, dryRun: bool)
    returns (n: nat)
    requires src != dst && pri < |src.at| && pri < |dst.at|
    modifies src, dst, to
    ensures n == |old(src.at)[pri]| && from.data == old(from.data)
    ensures dryRun ==> src.at == old(src.at) && dst.at == old(dst.at) && to.data == old(to.data)
    ensures !dryRun ==> src.at == old(src.at)[pri := []]
                        && dst.at == old(dst.at)[pri := old(dst.at)[pri] + Chunks(old(src.at)[pri], Batch(size))]
                        && to.data == CopyData(old(to.data), old(from.data), Chunks(old(src.at)[pri], Batch(size)))
  {
    var total := |src.at[pri]|;
    assert dst.at[pri] + [] == dst.at[pri];
    if total == 0 {
      return 0;
    }
    if dryRun {
      return total;
    }
    n := 0;
    while n < total
      invariant |src.at| == |old(src.at)| && src.at == old(src.at)[pri := src.at[pri]]
      invariant |dst.at| == |old(dst.at)| && dst.at == old(dst.at)[pri := dst.at[pri]]
      invariant 0 <= n <= total && |src.at[pri]| == total - n && from.data == old(from.data)
      invariant dst.at[pri] + Chunks(src.at[pri], Batch(size))
                == old(dst.at)[pri] + Chunks(old(src.at)[pri], Batch(size))
      invariant CopyData(to.data, from.data, Chunks(src.at[pri], Batch(size)))
                == CopyData(old(to.data), old(from.data), Chunks(old(src.at)[pri], Batch(size)))
    {
      var k := Least(Batch(size), total - n);
      ListBatch(src.at[pri], Batch(size), dst.at[pri], to.data, from.data);
      MoveRight(src, dst, from, to, pri, k);
      n := n + k;
    }
    assert dst.at[pri] + [] == dst.at[pri];
  }

  /** Source and destination under one key: shard ids "" and "default" name the same keys. The list and
      the data come back unchanged. */
  method MigrateListOntoItself(l: Lists, at: Server, pri: nat, size: int, dryRun: bool) returns (n: nat)
    requires pri < |l.at|
    modifies l, at
    ensures n == |old(l.at)[pri]| && l.at == old(l.at) && at.data == old(at.data)
  {
    var total := |l.at[pri]|;
    if dryRun {
      return total;
    }
    n := 0;
    while n < total
      invariant 0 <= n <= total && l.at == old(l.at) && at.data == old(at.data)
    {
      var k := Least(Batch(size), total - n);
      CopySelf(at.data, l.at[pri][total - k..]);
      MoveRight(l, l, at, at, pri, k);
      n := n + k;
    }
  }

  // ---------- sorted sets and sets ----------

  function Restrict(m: map<Id, int>, ids: set<Id>): map<Id, int> {
    map id | id in ids && id in m :: m[id]
  }

  /** One batch of a sorted set: copied, added to the destination with their scores, removed from the
      source. On one and the same key the entries are gone afterwards. */
  method MoveEntries(src: ZSet, dst: ZSet, from: Server, to: Server, ids: seq<Id>)
    modifies src, dst, to
    ensures src.scores == old(src.scores) - Elements(ids)
    ensures src != dst ==> dst.scores == old(dst.scores) + Restrict(old(src.scores), Elements(ids))
    ensures to.data == CopyData(old(to.data), old(from.data), ids) && from.data == old(from.data)
  {
    CopyTaskData(from, to, ids);
    ghost var same := src.scores + Restrict(src.scores, Elements(ids));
    assert same == src.scores;
    dst.scores := dst.scores + Restrict(src.scores, Elements(ids));
    src.scores := src.scores - Elements(ids);
  }

  /** `order` lists the ids of a key without repeats: the order in which its batches come. */
  ghost predicate Enumerates(order: seq<Id>, ids: set<Id>) {
    NoRepeats(order) && Elements(order) == ids
  }

  /** Taking a batch off the front of the order. */
  lemma NextBatch(order: seq<Id>, ids: set<Id>, k: nat)
    requires Enumerates(order, ids) && k <= |order|
    ensures Elements(order[..k]) <= ids && Enumerates(order[k..], ids - Elements(order[..k]))
  {
    assert order == order[..k] + order[k..];
    ElementsConcat(order[..k], order[k..]);
    assert Elements(order[..k]) !! Elements(order[k..]);
  }

  lemma NothingLeft(order: seq<Id>, ids: set<Id>)
    requires Enumerates(order, ids)
    ensures |order| == |ids| && (order == [] ==> ids == {})
  {
    CountElements(order);
  }

  lemma MergeSplit(d: map<Id, int>, s: map<Id, int>, ids: set<Id>)
    ensures d + Restrict(s, ids) + (s - ids) == d + s
  {
  }

  /** One batch leaves the union of both sorted sets, and what the destination will know, the same. */
  method EntriesBatch(src: ZSet, dst: ZSet, from: Server, to: Server, b: nat, order: seq<Id>) returns (rest: seq<Id>)
    requires src != dst && b >= 1 && order != [] && Enumerates(order, src.scores.Keys)
    modifies src, dst, to
    ensures rest == order[Least(b, |order|)..] && Enumerates(rest, src.scores.Keys) && from.data == old(from.data)
    ensures dst.scores + src.scores == old(dst.scores) + old(src.scores)
    ensures CopyData(to.data, from.data, rest) == CopyData(old(to.data), old(from.data), order)
  {
    var ids := order[..Least(b, |order|)];
    rest := order[|ids|..];
    NextBatch(order, src.scores.Keys, |ids|);
    CopyConcat(to.data, from.data, ids, rest);
    assert order == ids + rest;
    MergeSplit(dst.scores, src.scores, Elements(ids));
    ghost var keys := src.scores.Keys;
    MoveEntries(src, dst, from, to, ids);
    assert src.scores.Keys == keys - Elements(ids);
  }

  method MoveAllEntries(src: ZSet, dst: ZSet, from: Server, to: Server, b: nat, order: seq<Id>) returns (n: nat)
    requires src != dst && Enumerates(order, src.scores.Keys) && b >= 1
    modifies src, dst, to
    ensures n == |order| && from.data == old(from.data)
    ensures src.scores == map[] && dst.scores == old(dst.scores) + old(src.scores)
    ensures to.data == CopyData(old(to.data), old(from.data), order)
  {
    var rest := order;
    n := 0;
    while rest != []
      invariant Enumerates(rest, src.scores.Keys) && from.data == old(from.data) && n + |rest| == |order|
      invariant dst.scores + src.scores == old(dst.scores) + old(src.scores)
      invariant CopyData(to.data, from.data, rest) == CopyData(old(to.data), old(from.data), order)
      decreases |rest|
    {
      n := n + Least(b, |rest|);
      rest := EntriesBatch(src, dst, from, to, b, rest);
    }
  }

  /** Moves a whole sorted set in batches; `order` is its order by score. */
  method MigrateZSet(src: ZSet, dst: ZSet, from: Server, to: Server, size: int, dryRun: bool, order: seq<Id>)
    returns (n: nat)
    requires src != dst && Enumerates(order, src.scores.Keys)
    modifies src, dst, to
    ensures n == |old(src.scores).Keys| && from.data == old(from.data)
    ensures dryRun ==> src.scores == old(src.scores) && dst.scores == old(dst.scores) && to.data == old(to.data)
    ensures !dryRun ==> src.scores == map[] && dst.scores == old(dst.scores) + old(src.scores)
                        && to.data == CopyData(old(to.data), old(from.data), order)
  {
    NothingLeft(order, src.scores.Keys);
    if dryRun {
      return |src.scores.Keys|;
    }
    n := MoveAllEntries(src, dst, from, to, Batch(size), order);
  }

  /** Under one shared key every delayed entry is lost. */
  method MigrateZSetOntoItself(z: ZSet, at: Server, size: int, dryRun: bool, order: seq<Id>) returns (n: nat)
    requires Enumerates(order, z.scores.Keys)
    modifies z, at
    ensures n == |old(z.scores).Keys| && at.data == old(at.data)
    ensures z.scores == if dryRun then old(z.scores) else map[]
  {
    NothingLeft(order, z.scores.Keys);
    if dryRun {
      return |z.scores.Keys|;
    }
    n := 0;
    var rest := order;
    while rest != []
      invariant n + |rest| == |order| && at.data == old(at.data) && Enumerates(rest, z.scores.Keys)
      decreases |rest|
    {
      var ids := rest[..Least(Batch(size), |rest|)];
      NextBatch(rest, z.scores.Keys, |ids|);
      CopySelf(at.data, ids);
      ghost var keys := z.scores.Keys;
      MoveEntries(z, z, at, at, ids);
      assert z.scores.Keys == keys - Elements(ids);
      n := n + |ids|;
      rest := rest[|ids|..];
    }
    NothingLeft(rest, z.scores.Keys);
  }

  method MembersBatch(src: Set, dst: Set, from: Server, to: Server, b: nat, order: seq<Id>) returns (rest: seq<Id>)
    requires src != dst && b >= 1 && order != [] && Enumerates(order, src.members)
    modifies src, dst, to
    ensures rest == order[Least(b, |order|)..] && Enumerates(rest, src.members) && from.data == old(from.data)
    ensures dst.members + src.members == old(dst.members) + old(src.members)
    ensures CopyData(to.data, from.data, rest) == CopyData(old(to.data), old(from.data), order)
  {
    var ids := order[..Least(b, |order|)];
    rest := order[|ids|..];
    NextBatch(order, src.members, |ids|);
    CopyConcat(to.data, from.data, ids, rest);
    assert order == ids + rest;
    src.members := src.members - Elements(ids);
    CopyTaskData(from, to, ids);
    dst.members := dst.members + Elements(ids);
  }

  method MoveAllMembers(src: Set, dst: Set, from: Server, to: Server, b: nat, order: seq<Id>) returns (n: nat)
    requires src != dst && Enumerates(order, src.members) && b >= 1
    modifies src, dst, to
    ensures n == |order| && from.data == old(from.data)
    ensures src.members == {} && dst.members == old(dst.members) + old(src.members)
    ensures to.data == CopyData(old(to.data), old(from.data), order)
  {
    n := 0;
    var rest := order;
    while rest != []
      invariant Enumerates(rest, src.members) && from.data == old(from.data) && n + |rest| == |order|
      invariant dst.members + src.members == old(dst.members) + old(src.members)
      invariant CopyData(to.data, from.data, rest) == CopyData(old(to.data), old(from.data), order)
      decreases |rest|
    {
      n := n + Least(b, |rest|);
      rest := MembersBatch(src, dst, from, to, b, rest);
    }
    NothingLeft(rest, src.members);
  }

  /** Moves a whole set in batches popped from it; `order` is the order in which they come out. */
  method MigrateSet(src: Set, dst: Set, from: Server, to: Server, size: int, dryRun: bool, order: seq<Id>)
    returns (n: nat)
    requires src != dst && Enumerates(order, src.members)
    modifies src, dst, to
    ensures n == |old(src.members)| && from.data == old(from.data)
    ensures dryRun ==> src.members == old(src.members) && dst.members == old(dst.members) && to.data == old(to.data)
    ensures !dryRun ==> src.members == {} && dst.members == old(dst.members) + old(src.members)
                        && to.data == CopyData(old(to.data), old(from.data), order)
  {
    NothingLeft(order, src.members);
    if dryRun {
      return |src.members|;
    }
    n := MoveAllMembers(src, dst, from, to, Batch(size), order);
  }

  /** What popping a batch off a set can answer. */
  ghost predicate Pop(ids: seq<Id>, members: set<Id>, b: nat) {
    NoRepeats(ids) && Elements(ids) <= members && |ids| == Least(b, |members|)
  }

  method PopAndAdd(s: Set, at: Server, ids: seq<Id>)
    requires Elements(ids) <= s.members
    modifies s, at
    ensures s.members == old(s.members) && at.data == old(at.data)
  {
    CopySelf(at.data, ids);
    s.members := s.members - Elements(ids);
    CopyTaskData(at, at, ids);
    s.members := s.members + Elements(ids);
  }

  /** The least number of whole batches that reaches `n`, times their size. */
  function RoundUp(n: int, b: nat): (r: nat)
    requires b >= 1
    ensures n <= r && (n > 0 ==> r < n + b)
    decreases if n > 0 then n else 0
  {
    if n <= 0 then 0 else b + RoundUp(n - b, b)
  }

  /** What batches that are all full count up to. */
  function Rounded(total: nat, size: int): nat {
    if total == 0 then 0 else RoundUp(total, Least(Batch(size), total))
  }

  /** Under one shared key a set and the data come back unchanged. Every batch is a full one, so the
      count is the size of the set rounded up to whole batches. */
  method MigrateSetOntoItself(s: Set, at: Server, size: int, dryRun: bool, pops: seq<seq<Id>>) returns (n: nat)
    requires |pops| == |s.members| && forall i :: 0 <= i < |pops| ==> Pop(pops[i], s.members, Batch(size))
    modifies s, at
    ensures s.members == old(s.members) && at.data == old(at.data)
    ensures n == if dryRun then |s.members| else Rounded(|s.members|, size)
  {
    var total := |s.members|;
    if total == 0 || dryRun {
      return total;
    }
    n := 0;
    var i := 0;
    ghost var b := Least(Batch(size), total);
    while n < total
      invariant 0 <= i <= n && n + RoundUp(total - n, b) == RoundUp(total, b)
      invariant s.members == old(s.members) && at.data == old(at.data)
    {
      var ids := pops[i];
      PopAndAdd(s, at, ids);
      n := n + |ids|;
      i := i + 1;
    }
  }

  // ---------- a whole shard ----------

  /** The queue keys of one command and tenant on one shard. */
  class Shard {
    const pending: Lists
    const delayed: ZSet
    const inprog: Set
    const dlq: Set

    constructor (ls: Lists, z: ZSet, working: Set, dead: Set)
      ensures pending == ls && delayed == z && inprog == working && dlq == dead
    {
      pending, delayed, inprog, dlq := ls, z, working, dead;
    }
  }

  /** Two shards with keys of their own, ten pending lists each. */
  ghost predicate Apart(a: Shard, b: Shard)
    reads a.pending, b.pending
  {
    && |a.pending.at| == PRIORITIES && |b.pending.at| == PRIORITIES
    && a.pending != b.pending && a.delayed != b.delayed && a.dlq != b.dlq
    && a.inprog != a.dlq && a.inprog != b.dlq && b.inprog != a.dlq && b.inprog != b.dlq
  }

  /** The ids of the first `n` lists in the order they move. */
  function IdsUpTo(ls: seq<seq<Id>>, n: nat, b: nat): seq<Id>
    requires n <= |ls| && b >= 1
  {
    if n == 0 then [] else IdsUpTo(ls, n - 1, b) + Chunks(ls[n - 1], b)
  }

  function LengthUpTo(ls: seq<seq<Id>>, n: nat): nat
    requires n <= |ls|
  {
    if n == 0 then 0 else LengthUpTo(ls, n - 1) + |ls[n - 1]|
  }

  /** The counts are those of the ids moved. */
  lemma {:induction false} LengthIsCount(ls: seq<seq<Id>>, n: nat, b: nat)
    requires n <= |ls| && b >= 1
    ensures LengthUpTo(ls, n) == |IdsUpTo(ls, n, b)|
  {
    hide Chunks;
    if n > 0 {
      LengthIsCount(ls, n - 1, b);
    }
  }

  /** The ids moved with the first `n` lists are those in them, each as often as it is there. */
  lemma {:induction false} IdsAreListed(ls: seq<seq<Id>>, n: nat, b: nat, x: Id)
    requires n <= |ls| && b >= 1
    ensures multiset(IdsUpTo(ls, n, b))[x] == Occurrences(ls, n, x)
  {
    hide Chunks;
    if n > 0 {
      IdsAreListed(ls, n - 1, b, x);
      ChunksKeep(ls[n - 1], b);
    }
  }

  function Occurrences(ls: seq<seq<Id>>, n: nat, x: Id): nat
    requires n <= |ls|
  {
    if n == 0 then 0 else Occurrences(ls, n - 1, x) + multiset(ls[n - 1])[x]
  }

  datatype Result =
    | Moved(pending: nat, delayed: nat, inprog: nat, dlq: nat)
    | Busy(pendingDone: nat, delayedDone: nat, working: nat)
    | SameShard

  /** Both sides after the first `n` lists have moved. */
  function SrcAfter(was: seq<seq<Id>>, n: nat): (r: seq<seq<Id>>)
    requires n <= |was|
    ensures |r| == |was|
  {
    if n == 0 then was else SrcAfter(was, n - 1)[n - 1 := []]
  }

  function DstAfter(there: seq<seq<Id>>, was: seq<seq<Id>>, n: nat, b: nat): (r: seq<seq<Id>>)
    requires n <= |was| == |there| && b >= 1
    ensures |r| == |there|
  {
    if n == 0 then there else DstAfter(there, was, n - 1, b)[n - 1 := there[n - 1] + Chunks(was[n - 1], b)]
  }

  lemma {:induction false} AfterAt(there: seq<seq<Id>>, was: seq<seq<Id>>, n: nat, b: nat, i: nat)
    requires n <= |was| == |there| && b >= 1 && i < |was|
    ensures SrcAfter(was, n)[i] == if i < n then [] else was[i]
    ensures DstAfter(there, was, n, b)[i] == if i < n then there[i] + Chunks(was[i], b) else there[i]
  {
    if n > 0 {
      AfterAt(there, was, n - 1, b, i);
    }
  }

  lemma AllListsMoved(there: seq<seq<Id>>, was: seq<seq<Id>>, b: nat)
    requires |was| == |there| && b >= 1
    ensures var s, d := SrcAfter(was, |was|), DstAfter(there, was, |was|, b);
            forall i :: 0 <= i < |was| ==> s[i] == [] && d[i] == there[i] + Chunks(was[i], b)
  {
    forall i | 0 <= i < |was|
      ensures SrcAfter(was, |was|)[i] == [] && DstAfter(there, was, |was|, b)[i] == there[i] + Chunks(was[i], b)
    {
      AfterAt(there, was, |was|, b, i);
    }
  }

  lemma OneMoreCopied(to: Data, from: Data, was: seq<seq<Id>>, b: nat, pri: nat)
    requires b >= 1 && pri < |was|
    ensures CopyData(CopyData(to, from, IdsUpTo(was, pri, b)), from, Chunks(was[pri], b))
            == CopyData(to, from, IdsUpTo(was, pri + 1, b))
  {
    CopyConcat(to, from, IdsUpTo(was, pri, b), Chunks(was[pri], b));
  }

  method MigratePriority(src: Lists, dst: Lists, from: Server, to: Server, pri: nat, size: int, dryRun: bool,
                         ghost was: seq<seq<Id>>, ghost there: seq<seq<Id>>, ghost base: Data) returns (n: nat)
    requires src != dst && pri < |was| == |there|
    requires var m := if dryRun then 0 else pri;
             src.at == SrcAfter(was, m) && dst.at == DstAfter(there, was, m, Batch(size))
             && to.data == CopyData(base, from.data, IdsUpTo(was, m, Batch(size)))
    modifies src, dst, to
    ensures n == |was[pri]| && from.data == old(from.data)
    ensures var m := if dryRun then 0 else pri + 1;
            src.at == SrcAfter(was, m) && dst.at == DstAfter(there, was, m, Batch(size))
            && to.data == CopyData(base, from.data, IdsUpTo(was, m, Batch(size)))
  {
    AfterAt(there, was, if dryRun then 0 else pri, Batch(size), pri);
    OneMoreCopied(base, from.data, was, Batch(size), pri);
    n := MigrateList(src, dst, from, to, pri, size, dryRun);
  }

  /** All pending lists, lowest priority first. */
  method MigratePending(src: Lists, dst: Lists, from: Server, to: Server, size: int, dryRun: bool) returns (n: nat)
    requires src != dst && |src.at| == |dst.at|
    modifies src, dst, to
    ensures n == LengthUpTo(old(src.at), |old(src.at)|) && from.data == old(from.data)
    ensures var m := if dryRun then 0 else |old(src.at)|;
            src.at == SrcAfter(old(src.at), m) && dst.at == DstAfter(old(dst.at), old(src.at), m, Batch(size))
            && to.data == CopyData(old(to.data), old(from.data), IdsUpTo(old(src.at), m, Batch(size)))
  {
    n := 0;
    var pri, last := 0, |src.at|;
    ghost var was, there, base := src.at, dst.at, to.data;
    while pri < last
      invariant 0 <= pri <= last == |was| == |there| && n == LengthUpTo(was, pri) && from.data == old(from.data)
      invariant src.at == SrcAfter(was, if dryRun then 0 else pri)
      invariant dst.at == DstAfter(there, was, if dryRun then 0 else pri, Batch(size))
      invariant to.data == CopyData(base, from.data, IdsUpTo(was, if dryRun then 0 else pri, Batch(size)))
    {
      var k := MigratePriority(src, dst, from, to, pri, size, dryRun, was, there, base);
      n := n + k;
      pri := pri + 1;
    }
  }

  /** The queues a migration moves. */
  datatype Queues = Queues(pending: seq<seq<Id>>, delayed: map<Id, int>, dlq: set<Id>)

  ghost function QueuesOf(s: Shard): Queues
    reads s.pending, s.delayed, s.dlq
  {
    Queues(s.pending.at, s.delayed.scores, s.dlq.members)
  }

  /** Pending and delayed tasks moved, the DLQ not. */
  ghost predicate WaitingMoved(a0: Queues, b0: Queues, a: Queues, b: Queues, size: int)
    requires |a0.pending| == |b0.pending|
  {
    && |a.pending| == |a0.pending| && |b.pending| == |b0.pending|
    && (forall i :: 0 <= i < |a.pending| ==> a.pending[i] == [])
    && (forall i :: 0 <= i < |b.pending| ==> b.pending[i] == b0.pending[i] + Chunks(a0.pending[i], Batch(size)))
    && a.delayed == map[] && b.delayed == b0.delayed + a0.delayed
  }

  /** The pending ids in the order they move. */
  function PendingIds(q: Queues, size: int): seq<Id> {
    IdsUpTo(q.pending, |q.pending|, Batch(size))
  }

  /** The counts a migration reports. */
  function Tally(q: Queues, working: nat): Result {
    Moved(LengthUpTo(q.pending, |q.pending|), |q.delayed.Keys|, working, |q.dlq|)
  }

  /** The whole migration. Work in progress stops it, but only after pending and delayed tasks have
      moved; a dry run counts everything and writes nothing. */
  method Migrate(a: Shard, b: Shard, from: Server, to: Server, size: int, dryRun: bool, sameName: bool,
                 byScore: seq<Id>, popped: seq<Id>) returns (r: Result)
    requires Apart(a, b)
    requires Enumerates(byScore, a.delayed.scores.Keys) && Enumerates(popped, a.dlq.members)
    modifies a.pending, b.pending, a.delayed, b.delayed, a.dlq, b.dlq, to
    ensures sameName <==> r == SameShard
    ensures sameName || dryRun ==>
              QueuesOf(a) == old(QueuesOf(a)) && QueuesOf(b) == old(QueuesOf(b)) && to.data == old(to.data)
    ensures !sameName && dryRun ==> r == Tally(old(QueuesOf(a)), |a.inprog.members|)
    ensures !sameName && !dryRun ==> WaitingMoved(old(QueuesOf(a)), old(QueuesOf(b)), QueuesOf(a), QueuesOf(b), size)
    ensures !sameName && !dryRun && a.inprog.members == {} ==>
      && r == Tally(old(QueuesOf(a)), 0)
      && a.dlq.members == {} && b.dlq.members == old(b.dlq.members) + old(a.dlq.members)
      && to.data == CopyData(old(to.data), old(from.data), PendingIds(old(QueuesOf(a)), size) + byScore + popped)
    ensures !sameName && !dryRun && a.inprog.members != {} ==>
      && r == Busy(Tally(old(QueuesOf(a)), 0).pending, Tally(old(QueuesOf(a)), 0).delayed, |a.inprog.members|)
      && a.dlq.members == old(a.dlq.members) && b.dlq.members == old(b.dlq.members)
      && to.data == CopyData(old(to.data), old(from.data), PendingIds(old(QueuesOf(a)), size) + byScore)
  {
    if sameName {
      return SameShard;
    }
    var p := MigratePending(a.pending, b.pending, from, to, size, dryRun);
    var d := MigrateZSet(a.delayed, b.delayed, from, to, size, dryRun, byScore);
    ghost var was := old(QueuesOf(a));
    AllListsMoved(old(b.pending.at), was.pending, Batch(size));
    CopyConcat(old(to.data), from.data, PendingIds(was, size), byScore);
    var working := |a.inprog.members|;
    if working > 0 && !dryRun {
      return Busy(p, d, working);
    }
    CopyConcat(old(to.data), from.data, PendingIds(was, size) + byScore, popped);
    var x := MigrateSet(a.dlq, b.dlq, from, to, size, dryRun, popped);
    return Moved(p, d, if dryRun then working else 0, x);
  }

  method MigratePendingOntoItself(l: Lists, at: Server, size: int, dryRun: bool) returns (n: nat)
    modifies l, at
    ensures n == LengthUpTo(old(l.at), |old(l.at)|) && l.at == old(l.at) && at.data == old(at.data)
  {
    n := 0;
    var pri := 0;
    while pri < |l.at|
      invariant 0 <= pri <= |l.at| && n == LengthUpTo(l.at, pri) && l.at == old(l.at) && at.data == old(at.data)
    {
      var k := MigrateListOntoItself(l, at, pri, size, dryRun);
      n := n + k;
      pri := pri + 1;
    }
  }

  /** The whole migration between two names of one shard: pending tasks, DLQ and data come back
      unchanged, every delayed entry is lost, and the counts report success. */
  method MigrateOntoItself(a: Shard, at: Server, size: int, dryRun: bool, byScore: seq<Id>, pops: seq<seq<Id>>)
    returns (r: Result)
    requires a.inprog != a.dlq && Enumerates(byScore, a.delayed.scores.Keys)
    requires |pops| == |a.dlq.members| && forall i :: 0 <= i < |pops| ==> Pop(pops[i], a.dlq.members, Batch(size))
    modifies a.pending, a.delayed, a.dlq, at
    ensures at.data == old(at.data)
    ensures QueuesOf(a) == if dryRun then old(QueuesOf(a)) else old(QueuesOf(a)).(delayed := map[])
    ensures dryRun ==> r == Tally(old(QueuesOf(a)), |a.inprog.members|)
    ensures !dryRun && a.inprog.members == {} ==>
      r.Moved? && r.pending == Tally(old(QueuesOf(a)), 0).pending && r.delayed == Tally(old(QueuesOf(a)), 0).delayed
      && r.inprog == 0 && r.dlq == Rounded(|a.dlq.members|, size)
    ensures !dryRun && a.inprog.members != {} ==>
      r == Busy(Tally(old(QueuesOf(a)), 0).pending, Tally(old(QueuesOf(a)), 0).delayed, |a.inprog.members|)
  {
    var p := MigratePendingOntoItself(a.pending, at, size, dryRun);
    var d := MigrateZSetOntoItself(a.delayed, at, size, dryRun, byScore);
    var working := |a.inprog.members|;
    if working > 0 && !dryRun {
      return Busy(p, d, working);
    }
    var x := MigrateSetOntoItself(a.dlq, at, size, dryRun, pops);
    return Moved(p, d, if dryRun then working else 0, x);
  }

  // ---------- verification of a migration ----------

  datatype Counts = Counts(pending: nat, delayed: nat, inprog: nat, dlq: nat)

  /** The tasks of every kind of queue on a shard. */
  method CountTasks(s: Shard) returns (c: Counts)
    ensures c == Counts(LengthUpTo(s.pending.at, |s.pending.at|), |s.delayed.scores.Keys|,
                        |s.inprog.members|, |s.dlq.members|)
  {
    var total, pri := 0, 0;
    while pri < |s.pending.at|
      invariant 0 <= pri <= |s.pending.at| && total == LengthUpTo(s.pending.at, pri)
    {
      total := total + |s.pending.at[pri]|;
      pri := pri + 1;
    }
    return Counts(total, |s.delayed.scores.Keys|, |s.inprog.members|, |s.dlq.members|);
  }

  lemma {:induction false} NoneLeft(ls: seq<seq<Id>>, n: nat)
    requires n <= |ls|
    ensures LengthUpTo(ls, n) == 0 <==> forall i :: 0 <= i < n ==> ls[i] == []
  {
    if n > 0 {
      NoneLeft(ls, n - 1);
    }
  }

  /** A migration is verified exactly when nothing is left on the source and all shards are healthy. */
  method Verify(src: Shard, dst: Shard, healthy: seq<bool>) returns (ok: bool, there: Counts)
    ensures ok <==> (forall i :: 0 <= i < |src.pending.at| ==> src.pending.at[i] == []) && src.delayed.scores == map[]
                    && src.inprog.members == {} && src.dlq.members == {}
                    && forall i :: 0 <= i < |healthy| ==> healthy[i]
    ensures there == Counts(LengthUpTo(dst.pending.at, |dst.pending.at|), |dst.delayed.scores.Keys|,
                            |dst.inprog.members|, |dst.dlq.members|)
  {
    var left := CountTasks(src);
    there := CountTasks(dst);
    var all, i := true, 0;
    while i < |healthy| && all
      invariant 0 <= i <= |healthy| && (all <==> forall j :: 0 <= j < i ==> healthy[j])
    {
      all := healthy[i];
      i := i + 1;
    }
    NoneLeft(src.pending.at, |src.pending.at|);
    ok := left.pending + left.delayed + left.inprog + left.dlq == 0 && all;
  }

  /** After a real migration with nothing in progress, verification finds the source empty: it succeeds
      exactly when all shards are healthy. With work in progress it fails. */
  method MigrateAndVerify(a: Shard, b: Shard, from: Server, to: Server, size: int, byScore: seq<Id>, popped: seq<Id>,
                          healthy: seq<bool>) returns (ok: bool)
    requires Apart(a, b)
    requires Enumerates(byScore, a.delayed.scores.Keys) && Enumerates(popped, a.dlq.members)
    modifies a.pending, b.pending, a.delayed, b.delayed, a.dlq, b.dlq, to
    ensures ok <==> a.inprog.members == {} && forall i :: 0 <= i < |healthy| ==> healthy[i]
  {
    var r := Migrate(a, b, from, to, size, false, false, byScore, popped);
    var there;
    ok, there := Verify(a, b, healthy);
  }

  /** Between two names of one shard verification succeeds only if nothing but delayed tasks was there. */
  method MigrateOntoItselfAndVerify(a: Shard, at: Server, size: int, byScore: seq<Id>, pops: seq<seq<Id>>,
                                    healthy: seq<bool>) returns (ok: bool)
    requires a.inprog != a.dlq && Enumerates(byScore, a.delayed.scores.Keys)
    requires |pops| == |a.dlq.members| && forall i :: 0 <= i < |pops| ==> Pop(pops[i], a.dlq.members, Batch(size))
    modifies a.pending, a.delayed, a.dlq, at
    ensures ok <==> (forall i :: 0 <= i < |old(a.pending.at)| ==> old(a.pending.at)[i] == [])
                    && a.inprog.members == {} && old(a.dlq.members) == {}
                    && forall i :: 0 <= i < |healthy| ==> healthy[i]
  {
    var r := MigrateOntoItself(a, at, size, false, byScore, pops);
    var there;
    ok, there := Verify(a, a, healthy);
  }
}
