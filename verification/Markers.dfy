/** Markers inside queue keys: a word between two slashes, looked for from the front of the key. */
module Markers {
  import opened Bytes
  import opened KeyValue
  import opened Keys
  import opened Wrappers

  predicate OccursAt(k: Key, m: Key, i: nat) {
    i + |m| <= |k| && k[i..i + |m|] == m
  }

  /** The first occurrence of `m` in `k` at or after `i`. */
  function IndexFrom(k: Key, m: Key, i: nat): (r: Option<nat>)
    requires i <= |k|
    ensures r.Some? ==> i <= r.value && OccursAt(k, m, r.value)
    ensures r.Some? ==> forall j :: i <= j < r.value ==> !OccursAt(k, m, j)
    ensures r.None? ==> forall j :: i <= j ==> !OccursAt(k, m, j)
    decreases |k| - i
  {
    if i + |m| > |k| then None
    else if OccursAt(k, m, i) then Some(i)
    else if i == |k| then None
    else IndexFrom(k, m, i + 1)
  }

  lemma IndexUnique(k: Key, m: Key, i: nat)
    requires OccursAt(k, m, i) && forall j :: 0 <= j < i ==> !OccursAt(k, m, j)
    ensures IndexFrom(k, m, 0) == Some(i)
  {
  }

  lemma OccursInPrefix(k: Key, p: Key, m: Key, j: nat)
    requires IsPrefix(p, k) && j + |m| <= |p|
    ensures OccursAt(k, m, j) <==> OccursAt(p, m, j)
  {
    assert k[j..j + |m|] == p[j..j + |m|];
  }

  /** The marker does not already occur inside the queue's base. */
  ghost predicate MarkerOnce(cmd: Key, tenant: Key, m: Key) {
    forall j :: 0 <= j < |QueueBase(cmd, tenant)| ==> !OccursAt(QueueBase(cmd, tenant) + m, m, j)
  }

  /** The first marker of a key that continues the base with it is the one after the base exactly
      when the marker does not occur in the base. */
  lemma FirstMarkerIff(cmd: Key, tenant: Key, m: Key, rest: Key)
    ensures var b := QueueBase(cmd, tenant);
            MarkerOnce(cmd, tenant, m) <==> IndexFrom(b + m + rest, m, 0) == Some(|b|)
  {
    var b := QueueBase(cmd, tenant);
    var k := b + m + rest;
    forall j | 0 <= j <= |b| ensures OccursAt(k, m, j) <==> OccursAt(b + m, m, j) {
      OccursInPrefix(k, b + m, m, j);
    }
    assert OccursAt(b + m, m, |b|);
    if MarkerOnce(cmd, tenant, m) {
      IndexUnique(k, m, |b|);
    }
  }

  ghost predicate IsMarker(m: Key, word: Key) {
    m == [SLASH] + word + [SLASH] && SLASH !in word
  }

  /** With slash-free segments a marker occurs early exactly when a segment is its word. */
  lemma MarkerOnceIff(cmd: Key, tenant: Key, m: Key, word: Key)
    requires SLASH !in CmdSeg(cmd) && SLASH !in tenant
    requires IsMarker(m, word) && word != [113]
    ensures MarkerOnce(cmd, tenant, m) <==> CmdSeg(cmd) != word && TenantSeg(tenant) != word
  {
    var c, t, b := CmdSeg(cmd), TenantSeg(tenant), QueueBase(cmd, tenant);
    var k := b + m;
    assert k == QUEUE + c + [SLASH] + t + m;
    if c == word {
      assert k[7..7 + |m|] == m;
      assert OccursAt(k, m, 7);
    } else if t == word {
      assert k[8 + |c|..8 + |c| + |m|] == m;
      assert OccursAt(k, m, 8 + |c|);
    } else {
      forall j | 0 <= j < |b| ensures !OccursAt(k, m, j) {
        NoEarlyMarker(c, t, k, m, word, j);
      }
    }
  }

  lemma NoEarlyMarker(c: Key, t: Key, k: Key, m: Key, word: Key, j: nat)
    requires SLASH !in c && SLASH !in t && IsMarker(m, word) && word !in [[113], c, t]
    requires k == QUEUE + c + [SLASH] + t + m && j < 9 + |c| + |t|
    ensures !OccursAt(k, m, j)
  {
    SegmentIsWord(k, 5, [113], m, word);
    SegmentIsWord(k, 7, c, m, word);
    SegmentIsWord(k, 8 + |c|, t, m, word);
    assert k[j] == SLASH ==> j == 5 || j == 7 || j == 8 + |c|;
    MarkerStarts(k, m, j);
  }

  lemma MarkerStarts(k: Key, m: Key, j: nat)
    requires m != []
    ensures OccursAt(k, m, j) ==> k[j] == m[0]
  {
    if OccursAt(k, m, j) {
      assert k[j] == k[j..j + |m|][0];
    }
  }

  /** A marker that starts at a segment's leading slash spans the whole segment. */
  lemma SegmentIsWord(k: Key, at: nat, x: Key, m: Key, word: Key)
    requires SLASH !in x && IsMarker(m, word)
    requires at + 1 + |x| < |k| && k[at + 1..at + 1 + |x|] == x && k[at + 1 + |x|] == SLASH
    ensures OccursAt(k, m, at) ==> x == word
  {
    if OccursAt(k, m, at) {
      MarkerBytes(k, m, word, at);
      assert |x| == |word|;
    }
  }

  lemma MarkerBytes(k: Key, m: Key, word: Key, j: nat)
    requires IsMarker(m, word) && OccursAt(k, m, j)
    ensures k[j] == SLASH && k[j + 1 + |word|] == SLASH && k[j + 1..j + 1 + |word|] == word
    ensures forall i :: j < i <= j + |word| ==> k[i] != SLASH
  {
    assert forall i :: j <= i < j + |m| ==> k[i] == m[i - j];
  }
}
