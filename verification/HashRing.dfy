/** The consistent-hash ring that assigns keys to nodes. Hash functions are parameters; nothing is
    assumed about them, so positions may collide. */
module HashRing {
  /** Node ids are only compared; a number stands for an id's rank in string order. */
  type NodeId = nat

  datatype Node = Node(id: NodeId, addr: nat)

  /** The position of the v-th virtual instance of a node. */
  type Hash = (NodeId, nat) -> nat

  const VNODES := 256

  // ---------- what a ring means ----------

  /** Node `id` has a virtual instance at `p`. */
  ghost predicate Sits(vh: Hash, id: NodeId, p: nat) {
    exists v: nat :: v < VNODES && vh(id, v) == p
  }

  ghost predicate Taken(ids: set<NodeId>, vh: Hash, p: nat) {
    exists id :: id in ids && Sits(vh, id, p)
  }

  /** Among the nodes at a position the one with the largest id owns it. */
  ghost predicate Owns(ids: set<NodeId>, vh: Hash, p: nat, id: NodeId) {
    id in ids && Sits(vh, id, p) && forall o :: o in ids && Sits(vh, o, p) ==> o <= id
  }

  /** The first taken position clockwise from `h`, wrapping around at the end. */
  ghost predicate Clockwise(ids: set<NodeId>, vh: Hash, h: nat, p: nat) {
    Taken(ids, vh, p)
    && if p >= h then forall q: nat :: Taken(ids, vh, q) && q >= h ==> p <= q
       else forall q: nat :: Taken(ids, vh, q) ==> p <= q < h
  }

  /** Node `id` owns keys with hash `h`. */
  ghost predicate KeyOwner(ids: set<NodeId>, vh: Hash, h: nat, id: NodeId) {
    exists p :: Clockwise(ids, vh, h, p) && Owns(ids, vh, p, id)
  }

  /** A key has one owner, whatever order the nodes were given in. */
  lemma OwnerUnique(ids: set<NodeId>, vh: Hash, h: nat, a: NodeId, b: NodeId)
    requires KeyOwner(ids, vh, h, a) && KeyOwner(ids, vh, h, b)
    ensures a == b
  {
    var p :| Clockwise(ids, vh, h, p) && Owns(ids, vh, p, a);
    var q :| Clockwise(ids, vh, h, q) && Owns(ids, vh, q, b);
    assert p == q;
  }

  lemma TakenMore(ids: set<NodeId>, x: NodeId, vh: Hash, p: nat)
    ensures Taken(ids + {x}, vh, p) <==> Taken(ids, vh, p) || Sits(vh, x, p)
  {
  }

  /** A new node takes keys only for itself: a key's owner stays or becomes the new node. Read the other
      way round, when a node leaves only its own keys move. */
  lemma MinimalDisruption(ids: set<NodeId>, x: NodeId, vh: Hash, h: nat, before: NodeId, after: NodeId)
    requires KeyOwner(ids, vh, h, before) && KeyOwner(ids + {x}, vh, h, after)
    ensures after == before || after == x
  {
    var p :| Clockwise(ids, vh, h, p) && Owns(ids, vh, p, before);
    var q :| Clockwise(ids + {x}, vh, h, q) && Owns(ids + {x}, vh, q, after);
    if after != x {
      assert Sits(vh, after, q) && after in ids;
      assert Taken(ids, vh, q);
      assert Taken(ids + {x}, vh, p) by { TakenMore(ids, x, vh, p); }
      assert p == q by { SamePosition(ids, x, vh, h, p, q); }
      assert before in ids + {x} && Sits(vh, before, q);
    }
  }

  lemma SamePosition(ids: set<NodeId>, x: NodeId, vh: Hash, h: nat, p: nat, q: nat)
    requires Clockwise(ids, vh, h, p) && Clockwise(ids + {x}, vh, h, q) && Taken(ids, vh, q)
    ensures p == q
  {
    forall r ensures Taken(ids + {x}, vh, r) <==> Taken(ids, vh, r) || Sits(vh, x, r) {
      TakenMore(ids, x, vh, r);
    }
  }

  // ---------- sorting ----------

  ghost predicate Ascending(s: seq<nat>) {
    forall i, j :: 0 <= i < j < |s| ==> s[i] <= s[j]
  }

  function Insert(x: nat, s: seq<nat>): (r: seq<nat>)
    ensures |r| == |s| + 1
  {
    if s == [] || x <= s[0] then [x] + s else [s[0]] + Insert(x, s[1..])
  }

  lemma {:induction false} InsertBag(x: nat, s: seq<nat>)
    ensures multiset(Insert(x, s)) == multiset(s) + multiset{x}
  {
    if s != [] && x > s[0] {
      InsertBag(x, s[1..]);
      assert s == [s[0]] + s[1..];
    }
  }

  lemma {:induction false} InsertSorted(x: nat, s: seq<nat>)
    requires Ascending(s)
    ensures Ascending(Insert(x, s))
  {
    if s != [] && x > s[0] {
      InsertSorted(x, s[1..]);
      InsertBag(x, s[1..]);
      var r := Insert(x, s[1..]);
      forall i | 0 <= i < |r| ensures s[0] <= r[i] {
        assert r[i] in multiset(r);
        assert r[i] == x || r[i] in s[1..];
      }
    }
  }

  function SortHashes(s: seq<nat>): (r: seq<nat>) {
    if s == [] then [] else Insert(s[0], SortHashes(s[1..]))
  }

  lemma {:induction false} SortHashesSorts(s: seq<nat>)
    ensures Ascending(SortHashes(s)) && multiset(SortHashes(s)) == multiset(s)
  {
    if s != [] {
      SortHashesSorts(s[1..]);
      InsertBag(s[0], SortHashes(s[1..]));
      InsertSorted(s[0], SortHashes(s[1..]));
      assert s == [s[0]] + s[1..];
    }
  }

  lemma SameElements<T>(a: seq<T>, b: seq<T>, x: T)
    requires multiset(a) == multiset(b)
    ensures x in a <==> x in b
  {
    assert x in a <==> x in multiset(a);
    assert x in b <==> x in multiset(b);
  }

  predicate ById(ns: seq<Node>) {
    forall i, j :: 0 <= i < j < |ns| ==> ns[i].id <= ns[j].id
  }

  /** No two different nodes share an id. */
  ghost predicate IdsDecide(ns: seq<Node>) {
    forall m, n :: m in ns && n in ns && m.id == n.id ==> m == n
  }

  function InsertNode(n: Node, ns: seq<Node>): seq<Node> {
    if ns == [] || n.id <= ns[0].id then [n] + ns else [ns[0]] + InsertNode(n, ns[1..])
  }

  lemma {:induction false} InsertNodeBag(n: Node, ns: seq<Node>)
    ensures multiset(InsertNode(n, ns)) == multiset(ns) + multiset{n}
  {
    if ns != [] && n.id > ns[0].id {
      InsertNodeBag(n, ns[1..]);
      assert ns == [ns[0]] + ns[1..];
    }
  }

  lemma {:induction false} InsertNodeSorted(n: Node, ns: seq<Node>)
    requires ById(ns)
    ensures ById(InsertNode(n, ns))
  {
    if ns != [] && n.id > ns[0].id {
      InsertNodeSorted(n, ns[1..]);
      InsertNodeBag(n, ns[1..]);
      var r := InsertNode(n, ns[1..]);
      forall i | 0 <= i < |r| ensures ns[0].id <= r[i].id {
        assert r[i] in multiset(r);
        assert r[i] == n || r[i] in ns[1..];
      }
    }
  }

  function SortNodes(ns: seq<Node>): seq<Node> {
    if ns == [] then [] else InsertNode(ns[0], SortNodes(ns[1..]))
  }

  lemma {:induction false} SortNodesSorts(ns: seq<Node>)
    ensures ById(SortNodes(ns)) && multiset(SortNodes(ns)) == multiset(ns)
  {
    if ns != [] {
      SortNodesSorts(ns[1..]);
      InsertNodeBag(ns[0], SortNodes(ns[1..]));
      InsertNodeSorted(ns[0], SortNodes(ns[1..]));
      assert ns == [ns[0]] + ns[1..];
    }
  }

  lemma SameHead(a: seq<Node>, b: seq<Node>)
    requires ById(a) && ById(b) && IdsDecide(a) && multiset(a) == multiset(b) && a != []
    ensures b != [] && a[0] == b[0]
  {
    SameElements(a, b, a[0]);
    assert b != [];
    SameElements(a, b, b[0]);
  }

  lemma SameTail<T>(a: seq<T>, b: seq<T>)
    requires a != [] && b != [] && a[0] == b[0] && multiset(a) == multiset(b)
    ensures multiset(a[1..]) == multiset(b[1..])
  {
    assert a == [a[0]] + a[1..] && b == [b[0]] + b[1..];
    assert multiset(a[1..]) == multiset(a) - multiset{a[0]};
    assert multiset(b[1..]) == multiset(b) - multiset{b[0]};
  }

  lemma IdsDecideAlike(a: seq<Node>, b: seq<Node>)
    requires IdsDecide(a) && multiset(a) == multiset(b)
    ensures IdsDecide(b)
  {
    forall n ensures n in a <==> n in b {
      SameElements(a, b, n);
    }
  }

  /** Where ids decide nodes, a sorted list is fixed by what it holds. */
  lemma {:induction false} SortedUnique(a: seq<Node>, b: seq<Node>)
    requires ById(a) && ById(b) && IdsDecide(a) && multiset(a) == multiset(b)
    ensures a == b
  {
    if a == [] {
      assert |b| == |multiset(b)| == |multiset(a)| == 0;
    } else {
      SameHead(a, b);
      SameTail(a, b);
      SortedUnique(a[1..], b[1..]);
      assert a == [a[0]] + a[1..] && b == [b[0]] + b[1..];
    }
  }

  // ---------- the ring object ----------

  /** The ids of the first `n` nodes. */
  function IdsUpTo(ns: seq<Node>, n: nat): set<NodeId>
    requires n <= |ns|
  {
    if n == 0 then {} else IdsUpTo(ns, n - 1) + {ns[n - 1].id}
  }

  lemma {:induction false} InIdsUpTo(ns: seq<Node>, n: nat, id: NodeId)
    requires n <= |ns|
    ensures id in IdsUpTo(ns, n) <==> exists i :: 0 <= i < n && ns[i].id == id
  {
    if n > 0 {
      InIdsUpTo(ns, n - 1, id);
      if id == ns[n - 1].id {
        assert ns[n - 1].id == id;
      }
    }
  }

  /** `hashes` lists exactly the positions of `ids`, and `owner` gives each its owner. */
  ghost predicate Done(vh: Hash, ids: set<NodeId>, hashes: seq<nat>, owner: map<nat, NodeId>) {
    && (forall p :: p in owner <==> p in hashes)
    && (forall p :: p in hashes <==> Taken(ids, vh, p))
    && (forall p :: p in owner ==> Owns(ids, vh, p, owner[p]))
  }

  ghost predicate SitsBelow(vh: Hash, id: NodeId, v: nat, p: nat) {
    exists w: nat :: w < v && vh(id, w) == p
  }

  /** The same with the first `v` virtual instances of one more node. */
  ghost predicate Partly(vh: Hash, ids: set<NodeId>, id: NodeId, v: nat, hashes: seq<nat>, owner: map<nat, NodeId>) {
    && (forall p :: p in owner <==> p in hashes)
    && (forall p :: p in hashes <==> Taken(ids, vh, p) || SitsBelow(vh, id, v, p))
    && (forall p :: p in owner ==> if SitsBelow(vh, id, v, p) then owner[p] == id else Owns(ids, vh, p, owner[p]))
  }

  lemma PartlyMore(vh: Hash, ids: set<NodeId>, id: NodeId, v: nat, hashes: seq<nat>, owner: map<nat, NodeId>)
    requires Partly(vh, ids, id, v, hashes, owner)
    ensures Partly(vh, ids, id, v + 1, hashes + [vh(id, v)], owner[vh(id, v) := id])
  {
    var h := vh(id, v);
    forall p: nat ensures SitsBelow(vh, id, v + 1, p) <==> SitsBelow(vh, id, v, p) || p == h {
      if SitsBelow(vh, id, v + 1, p) {
        var w: nat :| w < v + 1 && vh(id, w) == p;
        assert w == v || w < v;
      }
    }
  }

  /** Enters all virtual instances of a node whose id is not below those entered before: on a collision
      the later writer takes the position. */
  method PlaceNode(vh: Hash, id: NodeId, hashes0: seq<nat>, owner0: map<nat, NodeId>, ghost ids: set<NodeId>)
    returns (hashes: seq<nat>, owner: map<nat, NodeId>)
    requires Done(vh, ids, hashes0, owner0) && forall o :: o in ids ==> o <= id
    ensures Done(vh, ids + {id}, hashes, owner)
  {
    hashes, owner := hashes0, owner0;
    var v := 0;
    while v < VNODES
      invariant 0 <= v <= VNODES && Partly(vh, ids, id, v, hashes, owner)
    {
      PartlyMore(vh, ids, id, v, hashes, owner);
      var h := vh(id, v);
      hashes := hashes + [h];
      owner := owner[h := id];
      v := v + 1;
    }
  }

  method PlaceAll(vh: Hash, nodes: seq<Node>) returns (hashes: seq<nat>, owner: map<nat, NodeId>)
    requires ById(nodes)
    ensures Done(vh, IdsUpTo(nodes, |nodes|), hashes, owner)
  {
    hashes, owner := [], map[];
    var i := 0;
    while i < |nodes|
      invariant 0 <= i <= |nodes| && Done(vh, IdsUpTo(nodes, i), hashes, owner)
    {
      forall o | o in IdsUpTo(nodes, i) ensures o <= nodes[i].id {
        InIdsUpTo(nodes, i, o);
      }
      hashes, owner := PlaceNode(vh, nodes[i].id, hashes, owner, IdsUpTo(nodes, i));
      i := i + 1;
    }
  }

  /** Finds a node by its id; of several with one id the last one. */
  method Index(nodes: seq<Node>) returns (m: map<NodeId, Node>)
    ensures forall n :: n in nodes ==> n.id in m && m[n.id] in nodes && m[n.id].id == n.id
  {
    m := map[];
    var i := 0;
    while i < |nodes|
      invariant 0 <= i <= |nodes|
      invariant forall j :: 0 <= j < i ==> nodes[j].id in m
      invariant forall id :: id in m ==> m[id] in nodes && m[id].id == id
    {
      m := m[nodes[i].id := nodes[i]];
      i := i + 1;
    }
  }

  /** Binary search: the first index whose position is at least `h`, or the length. */
  method Search(s: seq<nat>, h: nat) returns (k: nat)
    requires Ascending(s)
    ensures k <= |s| && (forall i :: 0 <= i < k ==> s[i] < h) && (forall i :: k <= i < |s| ==> s[i] >= h)
  {
    var lo, hi := 0, |s|;
    while lo < hi
      invariant 0 <= lo <= hi <= |s|
      invariant (forall i :: 0 <= i < lo ==> s[i] < h) && (forall i :: hi <= i < |s| ==> s[i] >= h)
    {
      var mid := (lo + hi) / 2;
      if s[mid] < h {
        lo := mid + 1;
      } else {
        hi := mid;
      }
    }
    k := lo;
  }

  class Ring {
    var nodes: seq<Node>
    var byId: map<NodeId, Node>
    var vhashes: seq<nat>
    var vowner: map<nat, NodeId>

    ghost function Ids(): set<NodeId>
      reads this
    {
      IdsUpTo(nodes, |nodes|)
    }

    ghost predicate Valid(vh: Hash)
      reads this
    {
      && nodes != [] && ById(nodes) && Ascending(vhashes) && Done(vh, Ids(), vhashes, vowner)
      && (forall n :: n in nodes ==> n.id in byId && byId[n.id] in nodes && byId[n.id].id == n.id)
    }

    constructor (given: seq<Node>, vh: Hash)
      requires given != []
      ensures Valid(vh) && multiset(nodes) == multiset(given)
    {
      var sorted := SortNodes(given);
      SortNodesSorts(given);
      SameElements(sorted, given, given[0]);
      var index := Index(sorted);
      var hashes, owner := PlaceAll(vh, sorted);
      SortHashesSorts(hashes);
      forall p ensures p in SortHashes(hashes) <==> p in hashes {
        SameElements(SortHashes(hashes), hashes, p);
      }
      nodes, byId, vhashes, vowner := sorted, index, SortHashes(hashes), owner;
    }

    /** The node that owns keys with hash `h`. */
    method Owner(h: nat, ghost vh: Hash) returns (n: Node)
      requires Valid(vh)
      ensures n in nodes && KeyOwner(Ids(), vh, h, n.id)
    {
      assert vhashes != [] by {
        InIdsUpTo(nodes, |nodes|, nodes[0].id);
        assert Sits(vh, nodes[0].id, vh(nodes[0].id, 0));
        assert Taken(Ids(), vh, vh(nodes[0].id, 0));
      }
      var k := Search(vhashes, h);
      if k == |vhashes| {
        k := 0;
      }
      var p := vhashes[k];
      assert p in vhashes;
      assert Clockwise(Ids(), vh, h, p);
      var id := vowner[p];
      assert Owns(Ids(), vh, p, id);
      InIdsUpTo(nodes, |nodes|, id);
      ghost var i: nat :| i < |nodes| && nodes[i].id == id;
      assert nodes[i] in nodes;
      n := byId[id];
    }
  }

  /** Rings built from the same nodes in any order have the same nodes and give every key the same owner. */
  lemma OrderIrrelevant(a: seq<Node>, b: seq<Node>)
    requires IdsDecide(a) && multiset(a) == multiset(b)
    ensures SortNodes(a) == SortNodes(b)
  {
    SortNodesSorts(a);
    SortNodesSorts(b);
    IdsDecideAlike(a, SortNodes(a));
    SortedUnique(SortNodes(a), SortNodes(b));
  }

  // ---------- decimal suffix of a virtual node ----------

  const MIN64 := -0x8000_0000_0000_0000
  const MAX63 := 0x7FFF_FFFF_FFFF_FFFF

  function Digits(n: nat): seq<nat> {
    if n == 0 then [] else Digits(n / 10) + [n % 10]
  }

  function Number(ds: seq<nat>): nat {
    if ds == [] then 0 else Number(ds[..|ds| - 1]) * 10 + ds[|ds| - 1]
  }

  lemma {:induction false} NumberOfDigits(n: nat)
    ensures Number(Digits(n)) == n
  {
    if n > 0 {
      NumberOfDigits(n / 10);
      assert Digits(n)[..|Digits(n)| - 1] == Digits(n / 10);
    }
  }

  /** A written number: a sign and digits. */
  datatype Text = Text(negative: bool, digits: seq<nat>)

  function Read(t: Text): int {
    var n: int := Number(t.digits);
    if t.negative then -n else n
  }

  function Pow10(n: nat): (r: nat)
    ensures r >= 1
  {
    if n == 0 then 1 else 10 * Pow10(n - 1)
  }

  lemma Pow10Of19()
    ensures Pow10(19) > MAX63 + 1
  {
    assert Pow10(9) == 1_000_000_000;
    assert Pow10(14) == 100_000 * Pow10(9);
    assert Pow10(19) == 100_000 * Pow10(14);
  }

  lemma NoDigits()
    ensures Digits(0) == [] && Pow10(0) == 1
  {
  }

  lemma OneDigit(m: nat, k: nat)
    requires 0 < m < Pow10(k)
    ensures Digits(m) == Digits(m / 10) + [m % 10] && k >= 1 && m / 10 < Pow10(k - 1)
  {
  }

  /** Decimal digits of a 64-bit number, written from the right into a 20-byte buffer. Negating the
      smallest number overflows to itself, so it gets a sign and no digits. */
  method AppendInt(n: int) returns (t: Text)
    requires MIN64 <= n <= MAX63
    ensures t == if n == 0 then Text(false, [0]) else if n == MIN64 then Text(true, [])
                 else Text(n < 0, Digits(if n < 0 then -n else n))
  {
    if n == 0 {
      return Text(false, [0]);
    }
    var m := if n == MIN64 then n else if n < 0 then -n else n;
    Pow10Of19();
    var ds := WriteDigits(m);
    t := Text(n < 0, ds);
  }

  /** The digits of a number, written from the right into twenty bytes; none unless it is positive. */
  method WriteDigits(m0: int) returns (ds: seq<nat>)
    requires m0 < Pow10(19)
    ensures ds == if m0 > 0 then Digits(m0) else []
  {
    hide Digits, Pow10;
    NoDigits();
    var buf := new nat[20];
    var i, m := buf.Length, m0;
    while m > 0
      invariant 1 <= i <= 20 && m < Pow10(i - 1) && (m < 0 ==> m == m0 && i == 20)
      invariant m0 > 0 ==> m >= 0 && Digits(m0) == Digits(m) + buf[i..]
      invariant m0 <= 0 ==> i == 20
    {
      ghost var done := buf[i..];
      OneDigit(m, i - 1);
      i := i - 1;
      buf[i] := m % 10;
      assert buf[i..] == [m % 10] + done;
      assert Digits(m / 10) + [m % 10] + done == Digits(m / 10) + ([m % 10] + done);
      m := m / 10;
    }
    ds := buf[i..];
  }

  /** The text reads back as the number exactly when the number is not the smallest. */
  lemma ReadsBack(n: int, t: Text)
    requires MIN64 <= n <= MAX63
    requires t == if n == 0 then Text(false, [0]) else if n == MIN64 then Text(true, [])
             else Text(n < 0, Digits(if n < 0 then -n else n))
    ensures Read(t) == n <==> n > MIN64
  {
    NumberOfDigits(if n < 0 then -n else n);
    assert Number([0]) == 0 by { assert [0][..0] == []; }
  }
}
