/** Byte strings, their lexicographic order, and big-endian numbers. */
module Bytes {
  type Byte = x: int | 0 <= x < 256

  type Key = seq<Byte>

  /** The order of keys in the store: first difference decides, a proper prefix comes first. */
  predicate Less(a: Key, b: Key) {
    b != [] && (a == [] || a[0] < b[0] || (a[0] == b[0] && Less(a[1..], b[1..])))
  }

  predicate IsPrefix(p: Key, k: Key) {
    p <= k
  }

  lemma {:induction false} LessIrreflexive(a: Key)
    ensures !Less(a, a)
  {
    if a != [] {
      LessIrreflexive(a[1..]);
    }
  }

  lemma {:induction false} LessTransitive(a: Key, b: Key, c: Key)
    requires Less(a, b) && Less(b, c)
    ensures Less(a, c)
  {
    if a != [] && a[0] == b[0] && b[0] == c[0] {
      LessTransitive(a[1..], b[1..], c[1..]);
    }
  }

  lemma {:induction false} LessTotal(a: Key, b: Key)
    ensures Less(a, b) || a == b || Less(b, a)
  {
    if a != [] && b != [] && a[0] == b[0] {
      LessTotal(a[1..], b[1..]);
      assert a == [a[0]] + a[1..] && b == [b[0]] + b[1..];
    }
  }

  lemma LessAsymmetric(a: Key, b: Key)
    requires Less(a, b)
    ensures !Less(b, a)
  {
    if Less(b, a) {
      LessTransitive(a, b, a);
      LessIrreflexive(a);
    }
  }

  /** A common prefix does not matter. */
  lemma {:induction false} LessCancel(p: Key, a: Key, b: Key)
    ensures Less(p + a, p + b) <==> Less(a, b)
  {
    if p == [] {
      assert p + a == a && p + b == b;
    } else {
      LessCancel(p[1..], a, b);
      assert (p + a)[1..] == p[1..] + a && (p + b)[1..] == p[1..] + b;
    }
  }

  // ---------- big-endian numbers ----------

  function Pow256(w: nat): (r: int)
    ensures r >= 1
  {
    if w == 0 then 1 else 256 * Pow256(w - 1)
  }

  const MAX64 := 0xFFFF_FFFF_FFFF_FFFF

  lemma Pow256Of8()
    ensures Pow256(8) == MAX64 + 1
  {
    assert Pow256(4) == 0x1_0000_0000;
    assert Pow256(8) == 256 * (256 * (256 * (256 * Pow256(4))));
  }

  lemma Pow256Of4()
    ensures Pow256(4) == 0x1_0000_0000
  {
  }

  /** `n` in `w` bytes, most significant first. */
  function BigEndian(n: nat, w: nat): (r: Key)
    requires n < Pow256(w)
    ensures |r| == w
  {
    if w == 0 then [] else BigEndian(n / 256, w - 1) + [n % 256]
  }

  function FromBytes(k: Key): (r: nat)
    ensures r < Pow256(|k|)
  {
    if k == [] then 0 else 256 * FromBytes(k[..|k| - 1]) + k[|k| - 1]
  }

  lemma {:induction false} BytesOfNumber(n: nat, w: nat)
    requires n < Pow256(w)
    ensures FromBytes(BigEndian(n, w)) == n
  {
    if w > 0 {
      BytesOfNumber(n / 256, w - 1);
      assert BigEndian(n, w)[..w - 1] == BigEndian(n / 256, w - 1);
    }
  }

  lemma {:induction false} NumberOfBytes(k: Key)
    ensures BigEndian(FromBytes(k), |k|) == k
  {
    if k != [] {
      var n := |k| - 1;
      NumberOfBytes(k[..n]);
      LastByte(FromBytes(k[..n]), k[n]);
      assert k == k[..n] + [k[n]];
    }
  }

  lemma LastByte(v: nat, b: Byte)
    ensures (256 * v + b) / 256 == v && (256 * v + b) % 256 == b
  {
  }

  /** Equal-width big-endian numbers are ordered as numbers; on a tie what follows decides. */
  lemma {:induction false} BigEndianOrder(m: nat, n: nat, w: nat, a: Key, b: Key)
    requires m < Pow256(w) && n < Pow256(w)
    ensures Less(BigEndian(m, w) + a, BigEndian(n, w) + b) <==> m < n || (m == n && Less(a, b))
    decreases w
  {
    if w == 0 {
      assert BigEndian(m, w) + a == a && BigEndian(n, w) + b == b;
    } else {
      var x, y := [m % 256] + a, [n % 256] + b;
      BigEndianOrder(m / 256, n / 256, w - 1, x, y);
      assert BigEndian(m, w) + a == BigEndian(m / 256, w - 1) + x;
      assert BigEndian(n, w) + b == BigEndian(n / 256, w - 1) + y;
      assert x[1..] == a && y[1..] == b;
    }
  }

  function Be8(n: nat): (r: Key)
    requires n <= MAX64
    ensures |r| == 8
  {
    Pow256Of8();
    BigEndian(n, 8)
  }

  lemma Be8Order(m: nat, n: nat, a: Key, b: Key)
    requires m <= MAX64 && n <= MAX64
    ensures Less(Be8(m) + a, Be8(n) + b) <==> m < n || (m == n && Less(a, b))
  {
    Pow256Of8();
    BigEndianOrder(m, n, 8, a, b);
  }

}
