/** Recovery of task ids from the in-progress keys. */
module LeaseKeys {
  import opened Bytes
  import opened KeyValue
  import opened Keys
  import opened Markers
  import opened Wrappers

  /** The id recovery reads from a key: everything after the first "/inprog/"; `None` when the key
      has no such marker. */
  function ReadId(k: Key): (r: Option<Key>)
    ensures r.Some? ==> |INPROG| + |r.value| <= |k| && k[|k| - |r.value|..] == r.value
                        && k[|k| - |r.value| - 1] == SLASH
  {
    match IndexFrom(k, INPROG, 0)
    case None => None
    case Some(at) =>
      assert k[at + 7] == k[at..at + 8][7];
      Some(k[at + |INPROG|..])
  }

  /** Recovery reads an id back exactly when the marker does not occur in the queue's base;
      otherwise it reads a longer one. */
  lemma ReadsIdExactly(cmd: Key, tenant: Key, id: Key)
    ensures ReadId(KeyInprog(cmd, tenant, id)).Some?
    ensures ReadId(KeyInprog(cmd, tenant, id)) == Some(id) <==> MarkerOnce(cmd, tenant, INPROG)
    ensures |ReadId(KeyInprog(cmd, tenant, id)).value| >= |id|
  {
    var b, k := QueueBase(cmd, tenant), KeyInprog(cmd, tenant, id);
    assert OccursAt(k, INPROG, |b|);
    FirstMarkerIff(cmd, tenant, INPROG, id);
    assert k[|b| + 8..] == id;
  }

  const WORD: Key := [105, 110, 112, 114, 111, 103]  // "inprog"

  /** With slash-free segments that means that neither segment is "inprog". */
  lemma InprogOnceIff(cmd: Key, tenant: Key)
    requires SLASH !in CmdSeg(cmd) && SLASH !in tenant
    ensures MarkerOnce(cmd, tenant, INPROG) <==> CmdSeg(cmd) != WORD && TenantSeg(tenant) != WORD
  {
    MarkerOnceIff(cmd, tenant, INPROG, WORD);
  }

  lemma ReadsFrom(k: Key, at: nat)
    requires OccursAt(k, INPROG, at) && forall j :: 0 <= j < at ==> !OccursAt(k, INPROG, j)
    ensures ReadId(k) == Some(k[at + 8..])
  {
    IndexUnique(k, INPROG, at);
  }

  /** For the tenant "inprog" recovery reads "inprog/" and the id, for the command "inprog" the tenant,
      "/inprog/" and the id. */
  lemma EarlyMarkerMisreads(cmd: Key, tenant: Key, id: Key)
    requires SLASH !in CmdSeg(cmd) && SLASH !in tenant
    ensures CmdSeg(cmd) != WORD && TenantSeg(tenant) == WORD ==>
              ReadId(KeyInprog(cmd, tenant, id)) == Some(WORD + [SLASH] + id)
    ensures CmdSeg(cmd) == WORD ==>
              ReadId(KeyInprog(cmd, tenant, id)) == Some(TenantSeg(tenant) + INPROG + id)
  {
    var c, t, k := CmdSeg(cmd), TenantSeg(tenant), KeyInprog(cmd, tenant, id);
    if c == WORD {
      CommandFirst(t, k, id);
    } else if t == WORD {
      TenantFirst(c, k, id);
    }
  }

  lemma CommandFirst(t: Key, k: Key, id: Key)
    requires k == QUEUE + WORD + [SLASH] + t + INPROG + id
    ensures ReadId(k) == Some(t + INPROG + id)
  {
    assert k[7..15] == INPROG && k[15..] == t + INPROG + id;
    forall j | 0 <= j < 7 ensures !OccursAt(k, INPROG, j) {
      NothingBefore(k, WORD, 7, j);
    }
    ReadsFrom(k, 7);
  }

  lemma TenantFirst(c: Key, k: Key, id: Key)
    requires SLASH !in c && c != WORD && k == QUEUE + c + [SLASH] + WORD + INPROG + id
    ensures ReadId(k) == Some(WORD + [SLASH] + id)
  {
    var at := 8 + |c|;
    assert k[at..at + 8] == INPROG && k[at + 8..] == WORD + [SLASH] + id;
    forall j | 0 <= j < at ensures !OccursAt(k, INPROG, j) {
      NothingBefore(k, c, at, j);
    }
    ReadsFrom(k, at);
  }

  lemma NothingBefore(k: Key, c: Key, at: nat, j: nat)
    requires SLASH !in c && at <= 8 + |c| <= |k| && k[..8 + |c|] == QUEUE + c && OccursAt(k, INPROG, at)
    requires j < at && at == if c == WORD then 7 else 8 + |c|
    ensures !OccursAt(k, INPROG, j)
  {
    var h := QUEUE + c;
    MarkerStarts(k, INPROG, j);
    MarkerStarts(k, INPROG, at);
    assert k[j] == h[j];
    assert k[j] == SLASH ==> j == 5 || j == 7;
    assert k[6] == h[6] && k[7] == h[7];
    assert k[5 + 1..5 + 1 + |[113]|] == [113] && IsMarker(INPROG, WORD);
    SegmentIsWord(k, 5, [113], INPROG, WORD);
    if at == 8 + |c| {
      assert k[7 + 1..7 + 1 + |c|] == h[8..8 + |c|] == c;
      assert at < |k| && k[7 + 1 + |c|] == SLASH;
      SegmentIsWord(k, 7, c, INPROG, WORD);
    }
  }

  /** A slash-free id that recovery reads is the last segment of the key. */
  lemma ReadsLastSegment(k: Key, id: Key)
    requires ReadId(k) == Some(id) && SLASH !in id
    ensures LastSegment(k) == Some(id)
  {
    var i := |k| - |id| - 1;
    assert k[i] == SLASH && k[i + 1..] == id;
    LastSegmentUnique(k, i);
  }
}
