/** The objects at work: serving calls on the repository and the results service is a run of the model,
    so what is proved of runs holds of the objects. */
module Serving {
  import opened RedisState
  import opened Partition
  import opened Calls
  import opened Runs
  import opened TaskRepository
  import opened BatchSubmit

  class Scheduler {
    const repo: Repository
    const results: ResultsService
    const maxDefault: int

    constructor (repo: Repository, results: ResultsService, maxDefault: int)
      requires results.repo == repo
      ensures this.repo == repo && this.results == results && this.maxDefault == maxDefault
    {
      this.repo, this.results, this.maxDefault := repo, results, maxDefault;
    }

    /** One call, handed to the object that serves it. */
    method Serve(c: Call)
      requires results.repo == repo && (c.ClaimCall? ==> |c.ws| == |c.cmds|)
      modifies repo, results
      ensures repo.Data() == Step(old(repo.Data()), c, maxDefault)
    {
      match c {
        case EnqueueCall(id, cmd, payload, priority, webhook, maxAttempts, visibleAt, tenant) =>
          var task, ready :=
            repo.EnqueueWithId(id, cmd, payload, priority, webhook, maxAttempts, visibleAt, tenant);
        case ClaimCall(worker, cmds, lease, limit, tenant, ws, flagged) =>
          var r := repo.ClaimTask(worker, cmds, lease, limit, maxDefault, tenant, ws, flagged);
        case HeartbeatCall(id, worker, extend) =>
          var e := repo.HeartbeatTask(id, worker, extend);
        case AbandonCall(id, worker) =>
          var e := repo.AbandonTask(id, worker);
        case NackCall(id, worker, delay, reason) =>
          var r := repo.NackTask(id, worker, delay, maxDefault, reason);
        case SubmitCall(id, req) =>
          var r := results.SubmitTask(id, req);
        case CleanupCall(limit, before, ids, skip) =>
          repo.CleanupAged(ids, skip);
        case TickCall(d) =>
          repo.now := repo.now + d;
      }
    }

    /** Any run of calls: afterwards every unfinished task is in exactly one queue position. */
    method ServeAll(calls: seq<Call>)
      requires results.repo == repo && Inv(repo.Data()) && PermittedAll(repo.Data(), calls, maxDefault)
      modifies repo, results
      ensures repo.Data() == Run(old(repo.Data()), calls, maxDefault) && Inv(repo.Data())
    {
      hide Inv, Step, Permitted;
      ghost var start := repo.Data();
      for i := 0 to |calls|
        invariant Inv(repo.Data()) && PermittedAll(repo.Data(), calls[i..], maxDefault)
        invariant Run(repo.Data(), calls[i..], maxDefault) == Run(start, calls, maxDefault)
      {
        assert calls[i..][0] == calls[i] && calls[i..][1..] == calls[i + 1..];
        CallInv(repo.Data(), calls[i], maxDefault);
        PermittedShape(repo.Data(), calls[i], maxDefault);
        Serve(calls[i]);
      }
      assert calls[|calls|..] == [];
    }
  }

  lemma PermittedShape(s: State, c: Call, maxDefault: int)
    requires Permitted(s, c, maxDefault)
    ensures c.ClaimCall? ==> |c.ws| == |c.cmds|
  {
  }
}
