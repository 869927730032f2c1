/** Group commit: one loop takes queued batches, merges them and commits the merge once. The local
    write path merges up to 64 batches, the replicated one up to 128. */
module GroupCommit {
  import opened KeyValue
  import opened Sequences
  import opened Wrappers

  const LOCAL_MAX := 64
  const RAFT_MAX := 128

  /** A submitter's batch, numbered in the order of submission; `None` is one that cannot be merged. */
  datatype Request = Request(id: nat, batch: Option<seq<Op>>)

  datatype Answer = Done | MergeFailed | Failed | NotLeader | Closed

  /** How the commit of a merge ends: written; refused; or reported as failed although the
      replicated log keeps the entry. */
  datatype Outcome = Written | Refused | Lost

  /** What became of a request: its answer, and whether its writes are in the store. */
  datatype Fate = Fate(req: Request, answer: Answer, included: bool)

  // ---------- the simple form: one commit per request ----------

  function CommitEach(db: Db, fs: seq<Fate>): Db
    decreases |fs|
  {
    if fs == [] then db
    else if fs[0].included && fs[0].req.batch.Some? then CommitEach(ApplyOps(db, fs[0].req.batch.value), fs[1..])
    else CommitEach(db, fs[1..])
  }

  lemma {:induction false} CommitEachConcat(db: Db, a: seq<Fate>, b: seq<Fate>)
    ensures CommitEach(db, a + b) == CommitEach(CommitEach(db, a), b)
    decreases |a|
  {
    if a == [] {
      assert a + b == b;
    } else {
      assert (a + b)[1..] == a[1..] + b;
      if a[0].included && a[0].req.batch.Some? {
        CommitEachConcat(ApplyOps(db, a[0].req.batch.value), a[1..], b);
      } else {
        CommitEachConcat(db, a[1..], b);
      }
    }
  }

  // ---------- one round of the loop ----------

  /** How many leading requests merge, at most `limit`. */
  function Mergeable(queue: seq<Request>, limit: nat): (m: nat)
    ensures m <= limit && m <= |queue|
    ensures forall i :: 0 <= i < m ==> queue[i].batch.Some?
    ensures m < limit && m < |queue| ==> queue[m].batch.None?
  {
    if limit == 0 || queue == [] || queue[0].batch.None? then 0
    else
      var n := Mergeable(queue[1..], limit - 1);
      assert forall i :: 1 <= i < n + 1 ==> queue[i] == queue[1..][i - 1];
      1 + n
  }

  function Verdict(leader: bool, out: Outcome): (Answer, bool) {
    if !leader then (NotLeader, false)
    else match out
      case Written => (Done, true)
      case Refused => (Failed, false)
      case Lost => (Failed, true)
  }

  function Alike(reqs: seq<Request>, answer: Answer, included: bool): (fs: seq<Fate>)
    ensures |fs| == |reqs| && forall i :: 0 <= i < |fs| ==> fs[i] == Fate(reqs[i], answer, included)
  {
    if reqs == [] then [] else [Fate(reqs[0], answer, included)] + Alike(reqs[1..], answer, included)
  }

  /** The fates of one round: the merged requests share one verdict, and a request that does not
      merge ends the round with an error of its own. */
  function RoundFates(queue: seq<Request>, max: nat, seen: nat, leader: bool, out: Outcome): seq<Fate> {
    var limit := Least(max, seen);
    var m := Mergeable(queue, limit);
    Alike(queue[..m], Verdict(leader, out).0, Verdict(leader, out).1)
    + OneFailed(if m < limit && m < |queue| then Some(queue[m]) else None)
  }

  function OneFailed(r: Option<Request>): seq<Fate> {
    match r case None => [] case Some(x) => [Fate(x, MergeFailed, false)]
  }

  ghost predicate AllOrNone(fs: seq<Fate>) {
    forall i, j :: 0 <= i < |fs| && 0 <= j < |fs| && fs[i].answer != MergeFailed && fs[j].answer != MergeFailed ==>
      fs[i].included == fs[j].included && fs[i].answer == fs[j].answer
  }

  /** A round takes a run of the queue's front, at most `max` of them merged, all or none of the merge. */
  lemma RoundShape(queue: seq<Request>, max: nat, seen: nat, leader: bool, out: Outcome)
    ensures var fs := RoundFates(queue, max, seen, leader, out);
            |fs| <= |queue|
            && (forall i :: 0 <= i < |fs| ==> fs[i].req == queue[i])
            && (forall i :: max <= i < |fs| ==> !fs[i].included)
            && AllOrNone(fs)
  {
  }

  ghost predicate FateOk(f: Fate) {
    && (f.answer == Done ==> f.included)
    && (f.included ==> (f.answer == Done || f.answer == Failed) && f.req.batch.Some?)
    && (f.req.batch.None? ==> f.answer == MergeFailed || f.answer == Closed)
  }

  lemma RoundFatesOk(queue: seq<Request>, max: nat, seen: nat, leader: bool, out: Outcome)
    ensures forall i :: 0 <= i < |RoundFates(queue, max, seen, leader, out)| ==>
              FateOk(RoundFates(queue, max, seen, leader, out)[i])
  {
  }

  /** The operations of the merged batch. */
  function MergedOps(reqs: seq<Request>): seq<Op> {
    if reqs == [] then []
    else (if reqs[0].batch.Some? then reqs[0].batch.value else []) + MergedOps(reqs[1..])
  }

  /** Committing the merge is committing its batches one after the other. */
  lemma {:induction false} MergeIsSequence(db: Db, reqs: seq<Request>, answer: Answer)
    ensures ApplyOps(db, MergedOps(reqs)) == CommitEach(db, Alike(reqs, answer, true))
    decreases |reqs|
  {
    if reqs != [] {
      var ops := if reqs[0].batch.Some? then reqs[0].batch.value else [];
      assert Alike(reqs, answer, true)[1..] == Alike(reqs[1..], answer, true);
      ApplyConcat(db, ops, MergedOps(reqs[1..]));
      MergeIsSequence(ApplyOps(db, ops), reqs[1..], answer);
    }
  }

  /** The batches of some requests, committed one after the other. */
  function InTurn(db: Db, reqs: seq<Request>): Db
    requires forall i :: 0 <= i < |reqs| ==> reqs[i].batch.Some?
    decreases |reqs|
  {
    if reqs == [] then db else InTurn(ApplyOps(db, reqs[0].batch.value), reqs[1..])
  }

  lemma {:induction false} MergeIsInTurn(db: Db, reqs: seq<Request>)
    requires forall i :: 0 <= i < |reqs| ==> reqs[i].batch.Some?
    ensures ApplyOps(db, MergedOps(reqs)) == InTurn(db, reqs)
    decreases |reqs|
  {
    if reqs != [] {
      ApplyConcat(db, reqs[0].batch.value, MergedOps(reqs[1..]));
      MergeIsInTurn(ApplyOps(db, reqs[0].batch.value), reqs[1..]);
    }
  }

  lemma {:induction false} ExcludedChangeNothing(db: Db, fs: seq<Fate>)
    requires forall i :: 0 <= i < |fs| ==> !fs[i].included
    ensures CommitEach(db, fs) == db
    decreases |fs|
  {
    if fs != [] {
      ExcludedChangeNothing(db, fs[1..]);
    }
  }

  /** The store after a round, as the loop computes it. */
  lemma RoundCommits(db: Db, queue: seq<Request>, max: nat, seen: nat, leader: bool, out: Outcome)
    ensures var m := Mergeable(queue, Least(max, seen));
            CommitEach(db, RoundFates(queue, max, seen, leader, out))
            == if Verdict(leader, out).1 then ApplyOps(db, MergedOps(queue[..m])) else db
  {
    var fs := RoundFates(queue, max, seen, leader, out);
    var m := Mergeable(queue, Least(max, seen));
    var v := Verdict(leader, out);
    if v.1 {
      MergeIsSequence(db, queue[..m], v.0);
      assert fs[..m] == Alike(queue[..m], v.0, true);
      assert fs == fs[..m] + fs[m..];
      CommitEachConcat(db, fs[..m], fs[m..]);
      ExcludedChangeNothing(CommitEach(db, fs[..m]), fs[m..]);
    } else {
      ExcludedChangeNothing(db, fs);
    }
  }

  // ---------- answers and contents ----------

  /** A request is in the store exactly when its submitter was told it is done. */
  ghost predicate Exact(fs: seq<Fate>) {
    forall i :: 0 <= i < |fs| ==> (fs[i].included <==> fs[i].answer == Done)
  }

  lemma ExactRound(queue: seq<Request>, max: nat, seen: nat, leader: bool, out: Outcome)
    ensures Exact(RoundFates(queue, max, seen, leader, out)) <==>
            !(leader && out == Lost && Mergeable(queue, Least(max, seen)) > 0)
  {
    var fs := RoundFates(queue, max, seen, leader, out);
    if Mergeable(queue, Least(max, seen)) > 0 {
      assert fs[0] == Fate(queue[0], Verdict(leader, out).0, Verdict(leader, out).1);
    }
  }

  lemma ExactConcat(fs: seq<Fate>, gs: seq<Fate>)
    ensures Exact(fs + gs) <==> Exact(fs) && Exact(gs)
  {
    if Exact(fs + gs) {
      assert forall i :: 0 <= i < |fs| ==> fs[i] == (fs + gs)[i];
      assert forall i :: 0 <= i < |gs| ==> gs[i] == (fs + gs)[|fs| + i];
    }
  }

  /** One commit per request that was told it is done. */
  function CommitDone(db: Db, fs: seq<Fate>): Db
    decreases |fs|
  {
    if fs == [] then db
    else if fs[0].answer == Done && fs[0].req.batch.Some? then CommitDone(ApplyOps(db, fs[0].req.batch.value), fs[1..])
    else CommitDone(db, fs[1..])
  }

  lemma {:induction false} ExactCommits(db: Db, fs: seq<Fate>)
    requires Exact(fs)
    ensures CommitEach(db, fs) == CommitDone(db, fs)
    decreases |fs|
  {
    if fs != [] {
      var next := if fs[0].included && fs[0].req.batch.Some? then ApplyOps(db, fs[0].req.batch.value) else db;
      ExactCommits(next, fs[1..]);
    }
  }

  // ---------- the loop ----------

  /** Consecutive numbers from `from`. */
  ghost predicate Numbered(rs: seq<Request>, from: nat) {
    forall i :: 0 <= i < |rs| ==> rs[i].id == from + i
  }

  /** The reply channels with an answer are those of the fated requests, and it is their fate's. */
  ghost predicate Answered(done: map<nat, Answer>, fs: seq<Fate>) {
    && (forall id :: id in done <==> 0 <= id < |fs|)
    && (forall i :: 0 <= i < |fs| ==> fs[i].req.id == i && done[i] == fs[i].answer)
  }

  /** Requests get their fates in the order they came, every fated one has its one answer, and the
      store is the base with the included requests committed one by one in that order. */
  ghost predicate LoopInv(base: Db, db: Db, done: map<nat, Answer>, fs: seq<Fate>, queue: seq<Request>) {
    && Numbered(queue, |fs|)
    && Answered(done, fs)
    && (forall i :: 0 <= i < |fs| ==> FateOk(fs[i]))
    && db == CommitEach(base, fs)
  }

  /** Settling the front of the queue keeps the invariant. */
  lemma LoopAdvance(base: Db, db: Db, done: map<nat, Answer>, fs: seq<Fate>, queue: seq<Request>,
                    after: map<nat, Answer>, gs: seq<Fate>)
    requires LoopInv(base, db, done, fs, queue)
    requires |gs| <= |queue| && forall i :: 0 <= i < |gs| ==> gs[i].req == queue[i] && FateOk(gs[i])
    requires Answered(after, fs + gs)
    ensures LoopInv(base, CommitEach(db, gs), after, fs + gs, queue[|gs|..])
  {
    CommitEachConcat(base, fs, gs);
  }

  /** A round whose replies are out and whose merge is committed keeps the invariant. */
  lemma RoundSettles(base: Db, db: Db, done: map<nat, Answer>, fs: seq<Fate>, queue: seq<Request>,
                     after: map<nat, Answer>, max: nat, seen: nat, leader: bool, out: Outcome)
    requires LoopInv(base, db, done, fs, queue)
    requires Answered(after, fs + RoundFates(queue, max, seen, leader, out))
    ensures var gs := RoundFates(queue, max, seen, leader, out); var m := Mergeable(queue, Least(max, seen));
            |gs| <= |queue|
            && LoopInv(base, if Verdict(leader, out).1 then ApplyOps(db, MergedOps(queue[..m])) else db,
                       after, fs + gs, queue[|gs|..])
  {
    RoundShape(queue, max, seen, leader, out);
    RoundFatesOk(queue, max, seen, leader, out);
    RoundCommits(db, queue, max, seen, leader, out);
    LoopAdvance(base, db, done, fs, queue, after, RoundFates(queue, max, seen, leader, out));
  }

  lemma RoundFatesAre(fs: seq<Fate>, queue: seq<Request>, max: nat, seen: nat, leader: bool, out: Outcome,
                      reqs: seq<Request>, bad: Option<Request>)
    requires seen <= |queue| && reqs == queue[..Mergeable(queue, Least(max, seen))]
    requires bad == if |reqs| < Least(max, seen) then Some(queue[|reqs|]) else None
    ensures fs + Alike(reqs, Verdict(leader, out).0, Verdict(leader, out).1) + OneFailed(bad)
            == fs + RoundFates(queue, max, seen, leader, out)
  {
  }

  /** What a round that merges `m` requests of `queue` leaves: one answer to all of them, their writes in
      order exactly when they are in the log, an error for a request that does not merge, and every earlier
      answer as it was. */
  ghost predicate Settled(queue: seq<Request>, m: nat, limit: nat, leader: bool, out: Outcome,
                          db: Db, done: map<nat, Answer>, after: Db, replies: map<nat, Answer>)
    requires m <= |queue| && forall i :: 0 <= i < m ==> queue[i].batch.Some?
  {
    && (forall i :: 0 <= i < m ==>
          queue[i].id in replies
          && replies[queue[i].id] == if !leader then NotLeader else if out == Written then Done else Failed)
    && (m < limit && m < |queue| ==> queue[m].id in replies && replies[queue[m].id] == MergeFailed)
    && (forall id :: id in done ==> id in replies && replies[id] == done[id])
    && after == if leader && out != Refused then InTurn(db, queue[..m]) else db
  }

  lemma RoundAnswers(fs: seq<Fate>, queue: seq<Request>, max: nat, seen: nat, leader: bool, out: Outcome,
                     db: Db, done: map<nat, Answer>, after: Db, replies: map<nat, Answer>)
    requires Numbered(queue, |fs|) && Answered(done, fs)
    requires Answered(replies, fs + RoundFates(queue, max, seen, leader, out))
    requires after == if Verdict(leader, out).1
                      then ApplyOps(db, MergedOps(queue[..Mergeable(queue, Least(max, seen))])) else db
    ensures Settled(queue, Mergeable(queue, Least(max, seen)), Least(max, seen), leader, out, db, done, after, replies)
  {
    var gs, limit := RoundFates(queue, max, seen, leader, out), Least(max, seen);
    var m := Mergeable(queue, limit);
    RoundParts(queue, max, seen, leader, out);
    MergeIsInTurn(db, queue[..m]);
    SettledBy(fs, gs, queue, m, limit, leader, out, db, done, after, replies);
  }

  lemma SettledBy(fs: seq<Fate>, gs: seq<Fate>, queue: seq<Request>, m: nat, limit: nat, leader: bool, out: Outcome,
                  db: Db, done: map<nat, Answer>, after: Db, replies: map<nat, Answer>)
    requires m <= |queue| && m <= |gs| && (forall i :: 0 <= i < m ==> queue[i].batch.Some?)
    requires forall i :: 0 <= i < m ==> gs[i].req == queue[i] && gs[i].answer == Verdict(leader, out).0
    requires m < limit && m < |queue| ==> m < |gs| && gs[m] == Fate(queue[m], MergeFailed, false)
    requires Answered(done, fs) && Answered(replies, fs + gs)
    requires after == if Verdict(leader, out).1 then InTurn(db, queue[..m]) else db
    ensures Settled(queue, m, limit, leader, out, db, done, after, replies)
  {
    hide InTurn;
    Replied(replies, fs, gs);
    forall i | 0 <= i < |fs| ensures i in replies && replies[i] == done[i] {
      assert (fs + gs)[i] == fs[i];
    }
  }

  lemma Replied(replies: map<nat, Answer>, fs: seq<Fate>, gs: seq<Fate>)
    requires Answered(replies, fs + gs)
    ensures forall i :: 0 <= i < |gs| ==> gs[i].req.id == |fs| + i && |fs| + i in replies
    ensures forall i :: 0 <= i < |gs| ==> replies[gs[i].req.id] == gs[i].answer
  {
    forall i | 0 <= i < |gs|
      ensures gs[i].req.id == |fs| + i && |fs| + i in replies && replies[|fs| + i] == gs[i].answer
    {
      assert (fs + gs)[|fs| + i] == gs[i];
    }
  }

  lemma RoundParts(queue: seq<Request>, max: nat, seen: nat, leader: bool, out: Outcome)
    ensures var gs, limit := RoundFates(queue, max, seen, leader, out), Least(max, seen);
            var m := Mergeable(queue, limit);
            && m <= |gs|
            && (forall i :: 0 <= i < m ==> gs[i] == Fate(queue[i], Verdict(leader, out).0, Verdict(leader, out).1))
            && (m < limit && m < |queue| ==> m < |gs| && gs[m] == Fate(queue[m], MergeFailed, false))
  {
  }

  class Coalescer {
    var db: Db
    var queue: seq<Request>
    var done: map<nat, Answer>
    var closed: bool
    ghost var base: Db
    ghost var fates: seq<Fate>

    ghost predicate Valid()
      reads this
    {
      LoopInv(base, db, done, fates, queue)
    }

    constructor (start: Db)
      ensures Valid() && db == base == start && queue == [] && fates == [] && !closed
    {
      db, queue, done, closed := start, [], map[], false;
      base, fates := start, [];
    }

    /** A submitter queues its batch; after shutdown it may instead see the stop signal. */
    method Submit(r: Request, seesStop: bool) returns (queued: bool)
      requires Valid() && (seesStop ==> closed) && r.id == |fates| + |queue|
      modifies this`queue
      ensures Valid() && queued == !seesStop
      ensures queue == if queued then old(queue) + [r] else old(queue)
    {
      queued := !seesStop;
      if queued {
        queue := queue + [r];
      }
    }

    /** Sends a reply; a channel takes only one. */
    method Send(id: nat, a: Answer)
      requires id !in done
      modifies this`done
      ensures done == old(done)[id := a]
    {
      done := done[id := a];
    }

    method SendAll(reqs: seq<Request>, a: Answer, ghost from: nat)
      requires Numbered(reqs, from) && forall id :: from <= id < from + |reqs| ==> id !in done
      modifies this`done
      ensures forall id :: id in done <==> id in old(done) || from <= id < from + |reqs|
      ensures forall id :: id in done ==> done[id] == if id in old(done) then old(done)[id] else a
    {
      var n := 0;
      while n < |reqs|
        invariant 0 <= n <= |reqs|
        invariant forall id :: id in done <==> id in old(done) || from <= id < from + n
        invariant forall id :: id in done ==> done[id] == if id in old(done) then old(done)[id] else a
      {
        Send(reqs[n].id, a);
        n := n + 1;
      }
    }

    /** Takes queued requests and merges them until `max` are merged, the loop sees the queue empty
        after `seen`, or one does not merge. */
    method Drain(max: nat, seen: nat) returns (reqs: seq<Request>, merged: seq<Op>, bad: Option<Request>)
      requires seen <= |queue|
      modifies this`queue
      ensures var m := Mergeable(old(queue), Least(max, seen));
              reqs == old(queue)[..m] && merged == MergedOps(reqs)
              && (bad.Some? <==> m < Least(max, seen)) && (bad.Some? ==> bad.value == old(queue)[m])
              && queue == old(queue)[if bad.Some? then m + 1 else m..]
    {
      hide MergedOps, Mergeable;
      reqs, merged, bad := [], [], None;
      var n := 0;
      NothingMerged();
      while n < max && n < seen
        invariant 0 <= n <= Least(max, seen)
        invariant reqs == old(queue)[..n] && queue == old(queue)[n..] && merged == MergedOps(reqs)
        invariant Mergeable(old(queue), Least(max, seen)) == n + Mergeable(queue, Least(max, seen) - n)
        invariant bad.None?
      {
        var more := queue[0];
        MergeableNext(queue, Least(max, seen) - n);
        queue := queue[1..];
        if more.batch.None? {
          bad := Some(more);
          return;
        }
        MergedSnoc(reqs, more);
        merged := merged + more.batch.value;
        reqs := reqs + [more];
        n := n + 1;
      }
    }

    /** The replies of a round: the request that did not merge first, then the merged ones. */
    method Reply(reqs: seq<Request>, bad: Option<Request>, a: Answer, ghost inc: bool, ghost fs: seq<Fate>)
      requires Answered(done, fs) && Numbered(reqs, |fs|)
      requires bad.Some? ==> bad.value.id == |fs| + |reqs|
      modifies this`done
      ensures Answered(done, fs + Alike(reqs, a, inc) + OneFailed(bad))
    {
      if bad.Some? {
        Send(bad.value.id, MergeFailed);
      }
      SendAll(reqs, a, |fs|);
    }

    /** Takes and merges the group of a round, and sends its replies. */
    method TakeGroup(max: nat, seen: nat, leader: bool, out: Outcome) returns (merged: seq<Op>)
      requires Valid() && seen <= |queue|
      modifies this`queue, this`done
      ensures merged == MergedOps(old(queue)[..Mergeable(old(queue), Least(max, seen))])
      ensures Answered(done, fates + RoundFates(old(queue), max, seen, leader, out))
      ensures |RoundFates(old(queue), max, seen, leader, out)| <= |old(queue)|
      ensures queue == old(queue)[|RoundFates(old(queue), max, seen, leader, out)|..]
    {
      ghost var q := queue;
      var reqs, bad;
      reqs, merged, bad := Drain(max, seen);
      var v := Verdict(leader, out);
      Reply(reqs, bad, v.0, v.1, fates);
      RoundFatesAre(fates, q, max, seen, leader, out, reqs, bad);
    }

    /** One round of the loop: the group, its commit if it is to be written, and what became of it. */
    method Round(max: nat, seen: nat, leader: bool, out: Outcome)
      requires Valid() && !closed && 0 < seen <= |queue| && 0 < max
      modifies this`queue, this`done, this`db, this`fates
      ensures Valid()
      ensures fates == old(fates) + RoundFates(old(queue), max, seen, leader, out)
      ensures queue == old(queue)[|fates| - |old(fates)|..]
      ensures Settled(old(queue), Mergeable(old(queue), Least(max, seen)), Least(max, seen), leader, out,
                      old(db), old(done), db, done)
    {
      var merged := TakeGroup(max, seen, leader, out);
      if Verdict(leader, out).1 {
        db := ApplyOps(db, merged);
      }
      RoundAnswers(fates, old(queue), max, seen, leader, out, old(db), old(done), db, done);
      RoundSettles(base, old(db), old(done), fates, old(queue), done, max, seen, leader, out);
      fates := fates + RoundFates(old(queue), max, seen, leader, out);
    }

    /** A round of the local commit loop: its answers stay exact. When the commit succeeds every merged
        request is told so and its batch is in the store, in order; else all are told it failed and nothing
        is written. */
    method LocalRound(seen: nat, ok: bool)
      requires Valid() && Exact(fates) && !closed && 0 < seen <= |queue|
      modifies this`queue, this`done, this`db, this`fates
      ensures Valid() && Exact(fates) && db == CommitDone(base, fates)
      ensures fates == old(fates) + RoundFates(old(queue), LOCAL_MAX, seen, true, if ok then Written else Refused)
      ensures var m := Mergeable(old(queue), Least(64, seen));
              && (forall i :: 0 <= i < m ==> old(queue)[i].id in done
                                             && done[old(queue)[i].id] == if ok then Done else Failed)
              && db == if ok then InTurn(old(db), old(queue)[..m]) else old(db)
    {
      Round(LOCAL_MAX, seen, true, if ok then Written else Refused);
      ExactCommits(base, fates);
    }

    /** A round of the replicated loop: answers stay exact unless the log keeps a group whose commit was
        reported to it as failed. */
    method ReplicatedRound(seen: nat, leader: bool, out: Outcome)
      requires Valid() && !closed && 0 < seen <= |queue|
      modifies this`queue, this`done, this`db, this`fates
      ensures Valid()
      ensures fates == old(fates) + RoundFates(old(queue), RAFT_MAX, seen, leader, out)
      ensures var m := Mergeable(old(queue), Least(128, seen));
              && (forall i :: 0 <= i < m ==>
                    old(queue)[i].id in done
                    && done[old(queue)[i].id] == if !leader then NotLeader else if out == Written then Done else Failed)
              && db == if leader && out != Refused then InTurn(old(db), old(queue)[..m]) else old(db)
      ensures old(Exact(fates)) ==>
                (Exact(fates) <==> !(leader && out == Lost && Mergeable(old(queue), Least(RAFT_MAX, seen)) > 0))
    {
      ExactRound(queue, RAFT_MAX, seen, leader, out);
      ExactConcat(fates, RoundFates(queue, RAFT_MAX, seen, leader, out));
      Round(RAFT_MAX, seen, leader, out);
    }

    /** Shutdown: every queued request gets the closed answer. */
    method Close()
      requires Valid()
      modifies this`queue, this`done, this`fates, this`closed
      ensures Valid() && closed && queue == []
      ensures fates == old(fates) + Alike(old(queue), Closed, false)
      ensures forall i :: 0 <= i < |old(queue)| ==> old(queue)[i].id in done && done[old(queue)[i].id] == Closed
    {
      var q := queue;
      ghost var gs := Alike(q, Closed, false);
      SendAll(q, Closed, |fates|);
      LoopAdvance(base, db, old(done), fates, q, done, gs);
      ExcludedChangeNothing(db, gs);
      assert q[|gs|..] == [];
      queue, closed := [], true;
      fates := fates + gs;
    }
  }

  lemma NothingMerged()
    ensures MergedOps([]) == []
  {
  }

  lemma MergeableNext(queue: seq<Request>, limit: nat)
    requires limit > 0 && queue != []
    ensures Mergeable(queue, limit) == if queue[0].batch.None? then 0 else 1 + Mergeable(queue[1..], limit - 1)
  {
  }

  lemma {:induction false} MergedSnoc(reqs: seq<Request>, r: Request)
    requires r.batch.Some?
    ensures MergedOps(reqs + [r]) == MergedOps(reqs) + r.batch.value
  {
    if reqs == [] {
      assert [r][1..] == [];
    } else {
      MergedSnoc(reqs[1..], r);
      assert (reqs + [r])[1..] == reqs[1..] + [r];
    }
  }
}
