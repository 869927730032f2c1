/** Batched result submission against one submission after the other. */
module BatchSubmit {
  import opened TaskTypes
  import opened Wrappers
  import opened RedisState
  import opened Lifecycle
  import opened TaskRepository
  import opened Calls

  datatype Item = Item(id: Id, req: SubmitRequest)

  datatype Response = Response(id: Id, result: Option<ResultRecord>, error: Option<Error>)

  /** A webhook callback that was handed over for delivery. */
  datatype Sent = Sent(task: Task, rec: ResultRecord)

  datatype Outcome = Outcome(state: State, responses: seq<Response>, sent: seq<Sent>)

  /** Why a submission is turned down: the task is not stored; both sides name a worker and they differ; the
      task is not in progress; a completion without a result; a failure with a blank error; or a status that
      is neither. The first that applies counts. */
  predicate TurnedDown(tasks: map<Id, Task>, x: Item, e: Error) {
    match e
    case NotFound => x.id !in tasks
    case NotOwner => x.id in tasks && OtherWorker(tasks[x.id], x.req)
    case NotInProgress => x.id in tasks && !OtherWorker(tasks[x.id], x.req) && tasks[x.id].status != InProgress
    case ResultRequired => Ready(tasks, x) && x.req.status == Completed && x.req.result == None
    case ErrorRequired => Ready(tasks, x) && x.req.status == Failed && Blank(x.req.error)
    case InvalidStatus => Ready(tasks, x) && x.req.status !in {Completed, Failed}
  }

  predicate OtherWorker(t: Task, req: SubmitRequest) {
    t.worker != NO_WORKER && req.worker != NO_WORKER && t.worker != req.worker
  }

  predicate Ready(tasks: map<Id, Task>, x: Item) {
    x.id in tasks && !OtherWorker(tasks[x.id], x.req) && tasks[x.id].status == InProgress
  }

  /** A submission is acceptable for a stored task in progress, if no two workers differ, as a completion
      with a result or as a failure with an error that is not blank. */
  predicate Acceptable(tasks: map<Id, Task>, x: Item) {
    Ready(tasks, x)
    && ((x.req.status == Completed && x.req.result.Some?) || (x.req.status == Failed && !Blank(x.req.error)))
  }

  /** The check of a submission passes exactly for the acceptable ones, and names the reason otherwise. */
  lemma CheckMeans(tasks: map<Id, Task>, x: Item, e: Error)
    ensures SubmitCheck(tasks, x.id, x.req).None? <==> Acceptable(tasks, x)
    ensures SubmitCheck(tasks, x.id, x.req) == Some(e) <==> TurnedDown(tasks, x, e)
  {
  }

  function SubmitOne(s: State, x: Item): Outcome {
    var e := SubmitCheck(s.tasks, x.id, x.req);
    if e.Some? then Outcome(s, [Response(x.id, None, e)], [])
    else Outcome(SubmitApply(s, x.id, x.req), [Response(x.id, Some(RecordOf(s, x.id, x.req)), None)],
                 [Sent(s.tasks[x.id], RecordOf(s, x.id, x.req))])
  }

  /** The items submitted one at a time. */
  function SubmitEach(s: State, items: seq<Item>): Outcome
    decreases |items|
  {
    if items == [] then Outcome(s, [], [])
    else
      var o := SubmitOne(s, items[0]);
      var r := SubmitEach(o.state, items[1..]);
      Outcome(r.state, o.responses + r.responses, o.sent + r.sent)
  }

  function SubmitCalls(items: seq<Item>): seq<Call>
    decreases |items|
  {
    if items == [] then [] else [SubmitCall(items[0].id, items[0].req)] + SubmitCalls(items[1..])
  }

  /** Submitting one at a time is a run of submit calls, so everything proved of runs holds of it. */
  lemma {:induction false} EachIsRun(s: State, items: seq<Item>, maxDefault: int)
    ensures PermittedAll(s, SubmitCalls(items), maxDefault)
    ensures SubmitEach(s, items).state == Run(s, SubmitCalls(items), maxDefault)
    decreases |items|
  {
    if items != [] {
      var calls := SubmitCalls(items);
      assert calls[0] == SubmitCall(items[0].id, items[0].req) && calls[1..] == SubmitCalls(items[1..]);
      assert Step(s, calls[0], maxDefault) == SubmitOne(s, items[0]).state;
      EachIsRun(SubmitOne(s, items[0]).state, items[1..], maxDefault);
    }
  }

  // ---------- the batched path ----------

  predicate Accepts(tasks: map<Id, Task>, x: Item) {
    SubmitCheck(tasks, x.id, x.req).None?
  }

  function Accepted(tasks: map<Id, Task>, items: seq<Item>): (r: seq<Item>)
    ensures forall i :: 0 <= i < |r| ==> Accepts(tasks, r[i])
    decreases |items|
  {
    if items == [] then []
    else (if Accepts(tasks, items[0]) then [items[0]] else []) + Accepted(tasks, items[1..])
  }

  predicate Stored(s: State, ups: seq<Item>) {
    forall i :: 0 <= i < |ups| ==> ups[i].id in s.tasks
  }

  function Save(s: State, x: Item): State
    requires x.id in s.tasks
  {
    SaveResult(s, RecordOf(s, x.id, x.req))
  }

  function Complete(s: State, x: Item): State
    requires x.id in s.tasks
  {
    CompleteTask(s, x.id, x.req.status, x.req.error)
  }

  function SaveAll(s: State, ups: seq<Item>): (r: State)
    requires Stored(s, ups)
    ensures r.tasks.Keys == s.tasks.Keys && r.now == s.now
    decreases |ups|
  {
    if ups == [] then s else assert Stored(Save(s, ups[0]), ups[1..]); SaveAll(Save(s, ups[0]), ups[1..])
  }

  function CompleteAll(s: State, ups: seq<Item>): State
    requires Stored(s, ups)
    decreases |ups|
  {
    if ups == [] then s else assert Stored(Complete(s, ups[0]), ups[1..]); CompleteAll(Complete(s, ups[0]), ups[1..])
  }

  function ResponsesOf(s: State, items: seq<Item>): seq<Response>
    decreases |items|
  {
    if items == [] then [] else SubmitOne(s, items[0]).responses + ResponsesOf(s, items[1..])
  }

  function SentOf(s: State, items: seq<Item>): seq<Sent>
    decreases |items|
  {
    if items == [] then [] else SubmitOne(s, items[0]).sent + SentOf(s, items[1..])
  }

  /** Every item checked against the tasks as fetched at the start; then all results saved, then all
      tasks completed, then all callbacks sent. */
  function Batched(s: State, items: seq<Item>): Outcome {
    var ups := Accepted(s.tasks, items);
    Outcome(CompleteAll(SaveAll(s, ups), ups), ResponsesOf(s, items), SentOf(s, items))
  }

  // ---------- commutation ----------

  lemma CompleteThenSave(s: State, x: Item, y: Item)
    requires x.id in s.tasks && y.id in s.tasks && x.id != y.id
    ensures Save(Complete(s, x), y) == Complete(Save(s, y), x)
  {
    var t := s.tasks;
    var tx := CompletedTask(s, t[x.id], x.req.status, x.req.error);
    var ty := t[y.id].(resultKey := "codeq:results");
    assert t[x.id := tx][y.id := ty] == t[y.id := ty][x.id := tx];
    var at := s.now + RETENTION;
    assert s.ttl[x.id := at][y.id := at] == s.ttl[y.id := at][x.id := at];
  }

  predicate Avoids(ups: seq<Item>, id: Id) {
    forall i :: 0 <= i < |ups| ==> ups[i].id != id
  }

  lemma {:induction false} CompleteThenSaveAll(s: State, x: Item, ups: seq<Item>)
    requires x.id in s.tasks && Stored(s, ups) && Avoids(ups, x.id)
    ensures Stored(Complete(s, x), ups)
    ensures SaveAll(Complete(s, x), ups) == Complete(SaveAll(s, ups), x)
    decreases |ups|
  {
    if ups != [] {
      var y := ups[0];
      CompleteThenSave(s, x, y);
      assert Stored(Save(s, y), ups[1..]);
      CompleteThenSaveAll(Save(s, y), x, ups[1..]);
    }
  }

  /** Ids of accepted items, each different from the later ones. */
  predicate DistinctIds(ups: seq<Item>) {
    forall i, j :: 0 <= i < j < |ups| ==> ups[i].id != ups[j].id
  }

  /** Submissions one at a time, all of them accepted. */
  function ApplyEach(s: State, ups: seq<Item>): State
    requires Stored(s, ups)
    decreases |ups|
  {
    if ups == [] then s
    else
      assert Stored(SubmitApply(s, ups[0].id, ups[0].req), ups[1..]);
      ApplyEach(SubmitApply(s, ups[0].id, ups[0].req), ups[1..])
  }

  lemma {:induction false} PhasesAreSequential(s: State, ups: seq<Item>)
    requires Stored(s, ups) && DistinctIds(ups)
    ensures CompleteAll(SaveAll(s, ups), ups) == ApplyEach(s, ups)
    decreases |ups|
  {
    if ups != [] {
      var x := ups[0];
      var rest := ups[1..];
      assert Avoids(rest, x.id);
      var s1 := Save(s, x);
      assert Stored(s1, rest);
      CompleteThenSaveAll(s1, x, rest);
      assert Complete(s1, x) == SubmitApply(s, x.id, x.req);
      PhasesAreSequential(SubmitApply(s, x.id, x.req), rest);
    }
  }

  // ---------- refinement ----------

  /** No item repeats the id of an earlier item that is accepted. */
  predicate NoRepeat(tasks: map<Id, Task>, items: seq<Item>) {
    forall i, j :: 0 <= i < j < |items| && items[i].id == items[j].id ==> !Accepts(tasks, items[i])
  }

  /** The two task tables agree on the ids of `items`. */
  predicate Agree(t1: map<Id, Task>, t2: map<Id, Task>, items: seq<Item>) {
    forall i :: 0 <= i < |items| ==>
      (items[i].id in t1 <==> items[i].id in t2) && (items[i].id in t1 ==> t1[items[i].id] == t2[items[i].id])
  }

  lemma {:induction false} AgreeSame(s1: State, s2: State, items: seq<Item>)
    requires s1.now == s2.now && Agree(s1.tasks, s2.tasks, items)
    ensures Accepted(s1.tasks, items) == Accepted(s2.tasks, items)
    ensures ResponsesOf(s1, items) == ResponsesOf(s2, items)
    ensures SentOf(s1, items) == SentOf(s2, items)
    decreases |items|
  {
    if items != [] {
      AgreeOne(s1, s2, items[0]);
      assert Agree(s1.tasks, s2.tasks, items[1..]);
      AgreeSame(s1, s2, items[1..]);
    }
  }

  lemma AgreeOne(s1: State, s2: State, x: Item)
    requires s1.now == s2.now && (x.id in s1.tasks <==> x.id in s2.tasks)
             && (x.id in s1.tasks ==> s1.tasks[x.id] == s2.tasks[x.id])
    ensures Accepts(s1.tasks, x) == Accepts(s2.tasks, x)
    ensures SubmitOne(s1, x).responses == SubmitOne(s2, x).responses
    ensures SubmitOne(s1, x).sent == SubmitOne(s2, x).sent
  {
    assert SubmitCheck(s1.tasks, x.id, x.req) == SubmitCheck(s2.tasks, x.id, x.req);
  }

  lemma {:induction false} AcceptedFrom(tasks: map<Id, Task>, items: seq<Item>, id: Id)
    requires Avoids(items, id)
    ensures Avoids(Accepted(tasks, items), id)
    decreases |items|
  {
    if items != [] {
      AcceptedFrom(tasks, items[1..], id);
    }
  }

  lemma {:induction false} AcceptedDistinct(tasks: map<Id, Task>, items: seq<Item>)
    requires NoRepeat(tasks, items)
    ensures DistinctIds(Accepted(tasks, items))
    decreases |items|
  {
    if items != [] {
      AcceptedDistinct(tasks, items[1..]);
      if Accepts(tasks, items[0]) {
        AcceptedFrom(tasks, items[1..], items[0].id);
      }
    }
  }

  /** Without repeats, submitting one at a time gives the responses and callbacks of the batch. */
  lemma {:induction false} EachIsApplyEach(s: State, items: seq<Item>)
    requires NoRepeat(s.tasks, items)
    ensures Stored(s, Accepted(s.tasks, items))
    ensures SubmitEach(s, items) == Outcome(ApplyEach(s, Accepted(s.tasks, items)),
                                            ResponsesOf(s, items), SentOf(s, items))
    decreases |items|
  {
    if items != [] {
      var x, rest := items[0], items[1..];
      assert items == [x] + rest;
      assert NoRepeat(s.tasks, rest);
      if Accepts(s.tasks, x) {
        EachAccepted(s, x, rest);
        EachIsApplyEach(SubmitApply(s, x.id, x.req), rest);
        assert Accepted(s.tasks, items)[1..] == Accepted(s.tasks, rest);
      } else {
        EachIsApplyEach(s, rest);
        assert Accepted(s.tasks, items) == Accepted(s.tasks, rest);
      }
    }
  }

  /** An accepted item leaves the verdicts on the others as they are. */
  lemma EachAccepted(s: State, x: Item, rest: seq<Item>)
    requires Accepts(s.tasks, x) && NoRepeat(s.tasks, [x] + rest)
    ensures var s1 := SubmitApply(s, x.id, x.req);
            && NoRepeat(s1.tasks, rest)
            && Accepted(s1.tasks, rest) == Accepted(s.tasks, rest)
            && ResponsesOf(s1, rest) == ResponsesOf(s, rest)
            && SentOf(s1, rest) == SentOf(s, rest)
  {
    var items := [x] + rest;
    forall i | 0 <= i < |rest| ensures rest[i].id != x.id {
      assert items[i + 1] == rest[i] && items[0] == x;
    }
    var s1 := SubmitApply(s, x.id, x.req);
    AgreeSame(s1, s, rest);
    forall i, j | 0 <= i < j < |rest| && rest[i].id == rest[j].id ensures !Accepts(s1.tasks, rest[i]) {
      assert items[i + 1] == rest[i] && items[j + 1] == rest[j];
      AgreeOne(s1, s, rest[i]);
    }
  }

  // ---------- and exactly then ----------

  /** The task has not been touched, or is done. */
  predicate SameOrDone(s0: State, s: State, id: Id)
    requires id in s0.tasks
  {
    id in s.tasks
    && (s.tasks[id] == s0.tasks[id] || (s.tasks[id].status != InProgress && s.tasks[id].worker == NO_WORKER))
  }

  predicate Done(s: State, id: Id) {
    id in s.tasks && s.tasks[id].status != InProgress && s.tasks[id].worker == NO_WORKER
  }

  lemma {:induction false} EachSameOrDone(s: State, items: seq<Item>, id: Id)
    requires id in s.tasks
    ensures SameOrDone(s, SubmitEach(s, items).state, id)
    decreases |items|
  {
    if items != [] {
      EachSameOrDone(SubmitOne(s, items[0]).state, items[1..], id);
    }
  }

  lemma EachCons(s: State, x: Item, rest: seq<Item>)
    ensures var o := SubmitOne(s, x);
            var r := SubmitEach(o.state, rest);
            SubmitEach(s, [x] + rest) == Outcome(r.state, o.responses + r.responses, o.sent + r.sent)
  {
    assert ([x] + rest)[1..] == rest;
  }

  lemma {:induction false} EachSplit(s: State, a: seq<Item>, b: seq<Item>)
    ensures SubmitEach(s, a + b).state == SubmitEach(SubmitEach(s, a).state, b).state
    ensures SubmitEach(s, a + b).responses
            == SubmitEach(s, a).responses + SubmitEach(SubmitEach(s, a).state, b).responses
    ensures SubmitEach(s, a + b).sent == SubmitEach(s, a).sent + SubmitEach(SubmitEach(s, a).state, b).sent
    ensures |SubmitEach(s, a).responses| == |a|
    decreases |a|
  {
    if a == [] {
      assert a + b == b;
    } else {
      hide SubmitOne, SubmitEach;
      var o := SubmitOne(s, a[0]);
      OneResponse(s, a[0]);
      EachSplit(o.state, a[1..], b);
      assert a == [a[0]] + a[1..] && a + b == [a[0]] + (a[1..] + b);
      EachCons(s, a[0], a[1..]);
      EachCons(s, a[0], a[1..] + b);
      Assoc(o.responses, SubmitEach(o.state, a[1..]).responses, SubmitEach(SubmitEach(s, a).state, b).responses);
      Assoc(o.sent, SubmitEach(o.state, a[1..]).sent, SubmitEach(SubmitEach(s, a).state, b).sent);
    }
  }

  lemma Assoc<T>(a: seq<T>, b: seq<T>, c: seq<T>)
    ensures (a + b) + c == a + (b + c)
  {
  }

  lemma OneResponse(s: State, x: Item)
    ensures |SubmitOne(s, x).responses| == 1
  {
  }

  lemma EachNone(s: State)
    ensures SubmitEach(s, []) == Outcome(s, [], [])
  {
  }

  lemma EachSnoc(s: State, a: seq<Item>, x: Item)
    ensures var o := SubmitEach(s, a);
            var p := SubmitOne(o.state, x);
            && SubmitEach(s, a + [x]).state == p.state
            && SubmitEach(s, a + [x]).responses == o.responses + p.responses
            && SubmitEach(s, a + [x]).sent == o.sent + p.sent
  {
    hide SubmitOne, SubmitEach;
    EachSplit(s, a, [x]);
    assert [x] == [x] + [];
    EachNone(SubmitOne(SubmitEach(s, a).state, x).state);
    EachCons(SubmitEach(s, a).state, x, []);
  }

  lemma {:induction false} ResponsesAt(s: State, items: seq<Item>, j: nat)
    requires j < |items|
    ensures |ResponsesOf(s, items)| == |items| && ResponsesOf(s, items)[j] == SubmitOne(s, items[j]).responses[0]
    decreases |items|
  {
    if j > 0 {
      ResponsesAt(s, items[1..], j - 1);
    } else if |items| > 1 {
      ResponsesAt(s, items[1..], 0);
    }
  }

  /** After an accepted item, a later item with the same id finds the task done. */
  lemma DoneAfter(s: State, a: seq<Item>, x: Item, mid: seq<Item>)
    requires Accepts(s.tasks, x)
    ensures Done(SubmitEach(s, a + ([x] + mid)).state, x.id)
  {
    var s1 := SubmitEach(s, a).state;
    EachSameOrDone(s, a, x.id);
    EachSameOrDone(SubmitOne(s1, x).state, mid, x.id);
    EachSplit(s, a, [x] + mid);
    EachCons(s1, x, mid);
  }

  lemma DoneBefore(s: State, items: seq<Item>, i: nat, j: nat)
    requires i < j < |items| && items[i].id == items[j].id && Accepts(s.tasks, items[i])
    ensures Done(SubmitEach(s, items[..j]).state, items[j].id)
  {
    assert items[..j] == items[..i] + ([items[i]] + items[i + 1..j]);
    DoneAfter(s, items[..i], items[i], items[i + 1..j]);
  }

  lemma DoneAnswers(s: State, sj: State, x: Item, y: Item)
    requires Accepts(s.tasks, x) && x.id == y.id && Done(sj, y.id)
    ensures SubmitOne(sj, y).responses[0].error == Some(NotInProgress)
    ensures SubmitOne(s, y).responses[0].error != Some(NotInProgress)
  {
  }

  lemma RepeatDiffers(s: State, items: seq<Item>, i: nat, j: nat)
    requires i < j < |items| && items[i].id == items[j].id && Accepts(s.tasks, items[i])
    ensures SubmitEach(s, items).responses != ResponsesOf(s, items)
  {
    hide SubmitOne, ResponsesOf, SubmitEach, SubmitCheck;
    DoneBefore(s, items, i, j);
    var sj := SubmitEach(s, items[..j]).state;
    assert items == items[..j] + items[j..];
    EachSplit(s, items[..j], items[j..]);
    assert items[j..] == [items[j]] + items[j + 1..];
    EachCons(sj, items[j], items[j + 1..]);
    ResponsesAt(s, items, j);
    DoneAnswers(s, sj, items[i], items[j]);
  }

  /** The batched path gives the same data, responses and callbacks as submitting the items one at a
      time if and only if no item repeats the id of an earlier accepted item. */
  lemma BatchRefinesSubmit(s: State, items: seq<Item>)
    ensures Stored(s, Accepted(s.tasks, items))
    ensures Batched(s, items) == SubmitEach(s, items) <==> NoRepeat(s.tasks, items)
  {
    if NoRepeat(s.tasks, items) {
      EachIsApplyEach(s, items);
      AcceptedDistinct(s.tasks, items);
      PhasesAreSequential(s, Accepted(s.tasks, items));
    } else {
      var i, j :| 0 <= i < j < |items| && items[i].id == items[j].id && Accepts(s.tasks, items[i]);
      RepeatDiffers(s, items, i, j);
    }
  }

  // ---------- the service ----------

  class ResultsService {
    const repo: Repository
    /** The callbacks handed over so far. */
    var sent: seq<Sent>

    constructor (repo: Repository)
      ensures this.repo == repo && sent == []
    {
      this.repo := repo;
      sent := [];
    }

    method SubmitTask(id: Id, req: SubmitRequest) returns (r: SubmitResult)
      modifies this, repo
      ensures (repo.Data(), r) == Submit(old(repo.Data()), id, req)
      ensures sent == old(sent) + SubmitOne(old(repo.Data()), Item(id, req)).sent
      ensures r.SubmitOk? <==> Acceptable(old(repo.tasks), Item(id, req))
      ensures r.SubmitErr? ==> TurnedDown(old(repo.tasks), Item(id, req), r.error)
                               && repo.Data() == old(repo.Data()) && sent == old(sent)
      ensures r.SubmitOk? ==>
                && r.rec == ResultRecord(id, req.status, req.result, req.error, old(repo.now))
                && repo.results == old(repo.results)[id := r.rec]
                && id in repo.tasks && repo.tasks[id].status == req.status && id !in repo.leases
                && sent == old(sent) + [Sent(old(repo.tasks)[id], r.rec)]
    {
      if id !in repo.tasks {
        return SubmitErr(NotFound);
      }
      var task := repo.tasks[id];
      if task.worker != NO_WORKER && req.worker != NO_WORKER && task.worker != req.worker {
        return SubmitErr(NotOwner);
      }
      if task.status != InProgress {
        return SubmitErr(NotInProgress);
      }
      match req.status {
        case Completed =>
          if req.result.None? {
            return SubmitErr(ResultRequired);
          }
        case Failed =>
          if Blank(req.error) {
            return SubmitErr(ErrorRequired);
          }
        case _ =>
          return SubmitErr(InvalidStatus);
      }
      var rec := ResultRecord(id, req.status, req.result, req.error, repo.now);
      var e := repo.SaveRecord(rec);
      e := repo.UpdateTaskOnComplete(id, req.status, req.error);
      sent := sent + [Sent(task, rec)];
      r := SubmitOk(rec);
    }

    /** The path taken when the batch fetch fails. */
    method SubmitOneByOne(items: seq<Item>) returns (responses: seq<Response>)
      modifies this, repo
      ensures Outcome(repo.Data(), responses, sent) ==
                var o := SubmitEach(old(repo.Data()), items);
                Outcome(o.state, o.responses, old(sent) + o.sent)
    {
      responses := [];
      ghost var s := repo.Data();
      for i := 0 to |items|
        invariant repo.Data() == SubmitEach(s, items[..i]).state
        invariant responses == SubmitEach(s, items[..i]).responses
        invariant sent == old(sent) + SubmitEach(s, items[..i]).sent
      {
        EachSnoc(s, items[..i], items[i]);
        assert items[..i + 1] == items[..i] + [items[i]];
        var r := SubmitTask(items[i].id, items[i].req);
        responses := responses + [match r
                                  case SubmitErr(e) => Response(items[i].id, None, Some(e))
                                  case SubmitOk(rec) => Response(items[i].id, Some(rec), None)];
      }
      assert items[..|items|] == items;
    }

    /** Check every item against the fetched tasks. Rejected items get their response at once; the
        accepted ones are collected together with their original index. */
    method CheckItems(fetched: map<Id, Task>, items: seq<Item>, responses: array<Response>)
      returns (ups: seq<Item>, indexMap: seq<nat>)
      requires responses.Length == |items|
      modifies responses
      ensures ups == Accepted(fetched, items) && Indexes(fetched, items, ups, indexMap)
      ensures forall i :: 0 <= i < |items| && !Accepts(fetched, items[i]) ==>
                responses[i] == Rejection(fetched, items[i])
    {
      hide Indexes, Accepted;
      ups, indexMap := [], [];
      NothingIndexed(fetched);
      for i := 0 to |items|
        invariant ups == Accepted(fetched, items[..i]) && Indexes(fetched, items[..i], ups, indexMap)
        invariant forall k :: 0 <= k < i && !Accepts(fetched, items[k]) ==> responses[k] == Rejection(fetched, items[k])
      {
        AcceptedSnoc(fetched, items[..i], items[i]);
        IndexesSnoc(fetched, items[..i], ups, indexMap, items[i]);
        assert items[..i + 1] == items[..i] + [items[i]];
        var e := SubmitCheck(fetched, items[i].id, items[i].req);
        if e.Some? {
          responses[i] := Response(items[i].id, None, e);
        } else {
          ups, indexMap := ups + [items[i]], indexMap + [i];
        }
      }
      assert items[..|items|] == items;
    }

    method SaveResults(ups: seq<Item>)
      requires Stored(repo.Data(), ups)
      modifies repo
      ensures repo.Data() == SaveAll(old(repo.Data()), ups)
    {
      for i := 0 to |ups|
        invariant Stored(repo.Data(), ups[i..]) && SaveAll(repo.Data(), ups[i..]) == SaveAll(old(repo.Data()), ups)
      {
        assert ups[i..][0] == ups[i] && ups[i..][1..] == ups[i + 1..];
        var e := repo.SaveRecord(ResultRecord(ups[i].id, ups[i].req.status,
                                              ups[i].req.result, ups[i].req.error, repo.now));
        assert Stored(repo.Data(), ups[i + 1..]);
      }
      assert ups[|ups|..] == [];
    }

    method CompleteTasks(ups: seq<Item>)
      requires Stored(repo.Data(), ups)
      modifies repo
      ensures repo.Data() == CompleteAll(old(repo.Data()), ups)
    {
      for i := 0 to |ups|
        invariant Stored(repo.Data(), ups[i..])
                  && CompleteAll(repo.Data(), ups[i..]) == CompleteAll(old(repo.Data()), ups)
      {
        assert ups[i..][0] == ups[i] && ups[i..][1..] == ups[i + 1..];
        var e := repo.UpdateTaskOnComplete(ups[i].id, ups[i].req.status, ups[i].req.error);
        assert Stored(repo.Data(), ups[i + 1..]);
      }
      assert ups[|ups|..] == [];
    }

    /** Put the record of each accepted item at the item's original index. */
    method FillResponses(now: int, ups: seq<Item>, indexMap: seq<nat>, responses: array<Response>)
      requires |indexMap| == |ups| && forall k :: 0 <= k < |ups| ==> indexMap[k] < responses.Length
      requires forall k, l :: 0 <= k < l < |ups| ==> indexMap[k] < indexMap[l]
      modifies responses
      ensures forall k :: 0 <= k < |ups| ==> responses[indexMap[k]] == Success(now, ups[k])
      ensures forall i :: 0 <= i < responses.Length && i !in indexMap ==> responses[i] == old(responses[i])
    {
      for k := 0 to |ups|
        invariant forall l :: 0 <= l < k ==> responses[indexMap[l]] == Success(now, ups[l])
        invariant forall i :: 0 <= i < responses.Length && i !in indexMap ==> responses[i] == old(responses[i])
      {
        responses[indexMap[k]] := Response(ups[k].id,
                                           Some(ResultRecord(ups[k].id, ups[k].req.status,
                                                             ups[k].req.result, ups[k].req.error, now)), None);
      }
    }

    method SendCallbacks(fetched: map<Id, Task>, now: int, ups: seq<Item>, ghost s: State, ghost items: seq<Item>)
      requires s.tasks == fetched && s.now == now && ups == Accepted(fetched, items)
      modifies this`sent
      ensures sent == old(sent) + SentOf(s, items)
    {
      BatchSent(s, items);
      SendEach(fetched, now, ups, SentOf(s, items));
    }

    method SendEach(fetched: map<Id, Task>, now: int, ups: seq<Item>, ghost all: seq<Sent>)
      requires |all| == |ups|
      requires forall k :: 0 <= k < |ups| ==>
                 ups[k].id in fetched && all[k] == Sent(fetched[ups[k].id], RecordAt(now, ups[k]))
      modifies this`sent
      ensures sent == old(sent) + all
    {
      for k := 0 to |ups|
        invariant sent == old(sent) + all[..k]
      {
        sent := sent + [Sent(fetched[ups[k].id], RecordAt(now, ups[k]))];
        assert all[..k + 1] == all[..k] + [all[k]];
      }
      assert all[..|ups|] == all;
    }

    method WriteAll(ups: seq<Item>)
      requires Stored(repo.Data(), ups)
      modifies repo
      ensures repo.Data() == CompleteAll(SaveAll(old(repo.Data()), ups), ups)
    {
      SaveResults(ups);
      CompleteTasks(ups);
    }

    /** The responses, in the order of the items, from the checks and the accepted ones. */
    method FinishResponses(fetched: map<Id, Task>, now: int, items: seq<Item>, ups: seq<Item>, indexMap: seq<nat>,
                           buffer: array<Response>, ghost s: State) returns (responses: seq<Response>)
      requires s.tasks == fetched && s.now == now && buffer.Length == |items|
      requires ups == Accepted(fetched, items) && Indexes(fetched, items, ups, indexMap)
      requires forall i :: 0 <= i < |items| && !Accepts(fetched, items[i]) ==> buffer[i] == Rejection(fetched, items[i])
      modifies buffer
      ensures responses == ResponsesOf(s, items)
    {
      FillResponses(now, ups, indexMap, buffer);
      responses := buffer[..];
      BatchResponses(s, items, ups, indexMap, responses);
    }

    /** The batched path, for items whose tasks have all been fetched. */
    method SubmitTogether(items: seq<Item>) returns (responses: seq<Response>)
      modifies this, repo
      ensures repo.Data() == Batched(old(repo.Data()), items).state
      ensures responses == ResponsesOf(old(repo.Data()), items)
      ensures sent == old(sent) + SentOf(old(repo.Data()), items)
    {
      hide Accepts, Accepted, Indexes, ResponsesOf, SentOf, Rejection;
      var fetched, now := repo.tasks, repo.now;
      ghost var s := repo.Data();
      AcceptedStored(s, items);
      var buffer := new Response[|items|](_ => Response(0, None, None));
      var ups, indexMap := CheckItems(fetched, items, buffer);
      WriteAll(ups);
      responses := FinishResponses(fetched, now, items, ups, indexMap, buffer, s);
      SendCallbacks(fetched, now, ups, s, items);
    }

    /** BatchSubmit. The fetch of all tasks fails when any of them is missing, or for reasons of the
        backend (`fetchFails`); then the items are submitted one by one. */
    method SubmitBatch(items: seq<Item>, fetchFails: bool) returns (responses: seq<Response>)
      modifies this, repo
      ensures Outcome(repo.Data(), responses, sent) ==
                var s := old(repo.Data());
                var o := if fetchFails || !Stored(s, items) then SubmitEach(s, items) else Batched(s, items);
                Outcome(o.state, o.responses, old(sent) + o.sent)
      ensures NoRepeat(old(repo.tasks), items) ==>
                Outcome(repo.Data(), responses, sent) ==
                  var o := SubmitEach(old(repo.Data()), items);
                  Outcome(o.state, o.responses, old(sent) + o.sent)
      ensures NoRepeat(old(repo.tasks), items) || !(fetchFails || !Stored(old(repo.Data()), items)) ==>
                Answered(old(repo.tasks), old(repo.now), items, responses)
    {
      BatchRefinesSubmit(repo.Data(), items);
      BatchAnswers(repo.Data(), items);
      if items == [] {
        return [];
      }
      if fetchFails || exists i :: 0 <= i < |items| && items[i].id !in repo.tasks {
        responses := SubmitOneByOne(items);
      } else {
        responses := SubmitTogether(items);
      }
    }
  }

  /** One response per item, in order: the record for an acceptable one, the reason for any other. */
  ghost predicate Answered(tasks: map<Id, Task>, now: int, items: seq<Item>, responses: seq<Response>) {
    |responses| == |items|
    && forall i :: 0 <= i < |items| ==>
         && responses[i].id == items[i].id
         && if Acceptable(tasks, items[i]) then
              responses[i].error == None && responses[i].result == Some(RecordAt(now, items[i]))
            else
              responses[i].result == None && responses[i].error.Some?
              && TurnedDown(tasks, items[i], responses[i].error.value)
  }

  lemma BatchAnswers(s: State, items: seq<Item>)
    ensures Answered(s.tasks, s.now, items, ResponsesOf(s, items))
  {
    if items != [] {
      ResponsesAt(s, items, 0);
    }
    forall i | 0 <= i < |items|
      ensures var r := SubmitOne(s, items[i]).responses[0];
              && r == ResponsesOf(s, items)[i] && r.id == items[i].id
              && if Acceptable(s.tasks, items[i]) then r.error == None && r.result == Some(RecordAt(s.now, items[i]))
                 else r.result == None && r.error.Some? && TurnedDown(s.tasks, items[i], r.error.value)
    {
      ResponsesAt(s, items, i);
      OneAnswer(s, items[i]);
    }
  }

  lemma OneAnswer(s: State, x: Item)
    ensures var r := SubmitOne(s, x).responses[0];
            && r.id == x.id
            && if Acceptable(s.tasks, x) then r.error == None && r.result == Some(RecordAt(s.now, x))
               else r.result == None && r.error.Some? && TurnedDown(s.tasks, x, r.error.value)
  {
    hide TurnedDown, Acceptable;
    var e := SubmitCheck(s.tasks, x.id, x.req);
    CheckMeans(s.tasks, x, if e.Some? then e.value else NotFound);
  }

  function RecordAt(now: int, x: Item): ResultRecord {
    ResultRecord(x.id, x.req.status, x.req.result, x.req.error, now)
  }

  function Success(now: int, x: Item): Response {
    Response(x.id, Some(RecordAt(now, x)), None)
  }

  function Rejection(tasks: map<Id, Task>, x: Item): Response {
    Response(x.id, None, SubmitCheck(tasks, x.id, x.req))
  }

  /** `indexMap` lists, in order, the indexes of the accepted items. */
  predicate Indexes(tasks: map<Id, Task>, items: seq<Item>, ups: seq<Item>, indexMap: seq<nat>) {
    && |indexMap| == |ups|
    && (forall k :: 0 <= k < |indexMap| ==> indexMap[k] < |items| && items[indexMap[k]] == ups[k])
    && (forall k, l :: 0 <= k < l < |indexMap| ==> indexMap[k] < indexMap[l])
    && (forall i :: 0 <= i < |items| ==> (i in indexMap <==> Accepts(tasks, items[i])))
  }

  lemma AcceptedStored(s: State, items: seq<Item>)
    ensures Stored(s, Accepted(s.tasks, items))
  {
  }

  lemma NothingIndexed(tasks: map<Id, Task>)
    ensures Accepted(tasks, []) == [] && Indexes(tasks, [], [], [])
  {
  }

  lemma IndexesSnoc(tasks: map<Id, Task>, items: seq<Item>, ups: seq<Item>, indexMap: seq<nat>, x: Item)
    requires Indexes(tasks, items, ups, indexMap)
    ensures if Accepts(tasks, x) then Indexes(tasks, items + [x], ups + [x], indexMap + [|items|])
            else Indexes(tasks, items + [x], ups, indexMap)
  {
  }

  lemma {:induction false} AcceptedSnoc(tasks: map<Id, Task>, items: seq<Item>, x: Item)
    ensures Accepted(tasks, items + [x]) == Accepted(tasks, items) + (if Accepts(tasks, x) then [x] else [])
    decreases |items|
  {
    if items == [] {
      assert items + [x] == [x];
    } else {
      AcceptedSnoc(tasks, items[1..], x);
      assert (items + [x])[1..] == items[1..] + [x];
    }
  }

  lemma BatchResponses(s: State, items: seq<Item>, ups: seq<Item>, indexMap: seq<nat>, responses: seq<Response>)
    requires ups == Accepted(s.tasks, items) && Indexes(s.tasks, items, ups, indexMap) && |responses| == |items|
    requires forall k :: 0 <= k < |ups| ==> responses[indexMap[k]] == Success(s.now, ups[k])
    requires forall i :: 0 <= i < |items| && !Accepts(s.tasks, items[i]) ==>
               responses[i] == Rejection(s.tasks, items[i])
    ensures responses == ResponsesOf(s, items)
  {
    if items != [] {
      ResponsesAt(s, items, 0);
    }
    forall i | 0 <= i < |items| ensures responses[i] == ResponsesOf(s, items)[i] {
      ResponsesAt(s, items, i);
      if Accepts(s.tasks, items[i]) {
        var k :| 0 <= k < |indexMap| && indexMap[k] == i;
      }
    }
  }

  lemma {:induction false} BatchSent(s: State, items: seq<Item>)
    ensures var ups := Accepted(s.tasks, items);
            && |SentOf(s, items)| == |ups|
            && forall k :: 0 <= k < |ups| ==>
                 ups[k].id in s.tasks && SentOf(s, items)[k] == Sent(s.tasks[ups[k].id], RecordAt(s.now, ups[k]))
    decreases |items|
  {
    hide SubmitOne, Accepts;
    if items != [] {
      OneSent(s, items[0]);
      BatchSent(s, items[1..]);
    }
  }

  lemma OneSent(s: State, x: Item)
    ensures Accepts(s.tasks, x) ==>
              x.id in s.tasks && SubmitOne(s, x).sent == [Sent(s.tasks[x.id], RecordAt(s.now, x))]
    ensures !Accepts(s.tasks, x) ==> SubmitOne(s, x).sent == []
  {
  }
}
