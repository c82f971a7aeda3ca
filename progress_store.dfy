/** The job progress store shared by the API and the processing service
    (the global `progress_store` dictionary of backend/app.py, updated by
    backend/services/hr_service.py). */
module ProgressStore {
  import opened Common

  /** The dictionary process_month_data_with_progress returns. */
  datatype RunResult = RunResult(message: string, processedCount: nat, monthYear: Option<string>)

  /** One job entry. `result` is absent until the job completes normally. */
  datatype Job = Job(progress: int, status: string, completed: bool, error: Option<string>, result: Option<RunResult>)

  /** The entry a new job starts with. */
  const Starting: Job := Job(0, "Starting...", false, None, None)

  /** dict.update with the 'progress' and 'status' keys of one job. */
  function WithProgress(jobs: map<string, Job>, id: string, progress: int, status: string): (r: map<string, Job>)
    requires id in jobs
    ensures r.Keys == jobs.Keys
    ensures r[id].progress == progress && r[id].status == status
    ensures r[id].completed == jobs[id].completed && r[id].error == jobs[id].error && r[id].result == jobs[id].result
    ensures forall other :: other in jobs && other != id ==> r[other] == jobs[other]
  {
    jobs[id := jobs[id].(progress := progress, status := status)]
  }

  /** The update after a normal return of the service: 100, 'Completed',
      completed, and the result; the error stays as it was (None). */
  function WithCompletion(jobs: map<string, Job>, id: string, result: RunResult): (r: map<string, Job>)
    requires id in jobs
    ensures r.Keys == jobs.Keys
    ensures r[id] == Job(100, "Completed", true, jobs[id].error, Some(result))
    ensures forall other :: other in jobs && other != id ==> r[other] == jobs[other]
  {
    jobs[id := jobs[id].(progress := 100, status := "Completed", completed := true, result := Some(result))]
  }

  /** The update after the service raised: 0, 'Error: msg', completed, and
      the message as the error; a result stays as it was. */
  function WithFailure(jobs: map<string, Job>, id: string, message: string): (r: map<string, Job>)
    requires id in jobs
    ensures r.Keys == jobs.Keys
    ensures r[id] == Job(0, "Error: " + message, true, Some(message), jobs[id].result)
    ensures forall other :: other in jobs && other != id ==> r[other] == jobs[other]
  {
    jobs[id := jobs[id].(progress := 0, status := "Error: " + message, completed := true, error := Some(message))]
  }

  /** The entries after a sequence of progress updates (job id, progress,
      status); an update of an unknown job changes nothing. */
  function Replay(jobs: map<string, Job>, updates: seq<(string, int, string)>): (r: map<string, Job>)
    ensures r.Keys == jobs.Keys
  {
    if updates == [] then jobs
    else
      var before := Replay(jobs, updates[..|updates| - 1]);
      var u := updates[|updates| - 1];
      if u.0 in before then WithProgress(before, u.0, u.1, u.2) else before
  }

  /** Progress updates change no job's completion, error or result, and
      leave every job they do not name exactly as it was. */
  lemma {:induction false} ReplayTouchesOnlyProgress(jobs: map<string, Job>, updates: seq<(string, int, string)>)
    ensures forall id :: id in jobs ==>
      Replay(jobs, updates)[id].completed == jobs[id].completed &&
      Replay(jobs, updates)[id].error == jobs[id].error &&
      Replay(jobs, updates)[id].result == jobs[id].result
    ensures forall id :: id in jobs && (forall k :: 0 <= k < |updates| ==> updates[k].0 != id) ==>
      Replay(jobs, updates)[id] == jobs[id]
  {
    if updates != [] {
      var init := updates[..|updates| - 1];
      ReplayTouchesOnlyProgress(jobs, init);
      forall id | id in jobs && (forall k :: 0 <= k < |updates| ==> updates[k].0 != id)
        ensures forall k :: 0 <= k < |init| ==> init[k].0 != id
      {
        forall k | 0 <= k < |init| ensures init[k].0 != id {
          assert init[k] == updates[k];
        }
      }
    }
  }

  /** One more update of a known job. */
  lemma ReplaySnoc(jobs: map<string, Job>, updates: seq<(string, int, string)>, u: (string, int, string))
    requires u.0 in jobs
    ensures Replay(jobs, updates + [u]) == WithProgress(Replay(jobs, updates), u.0, u.1, u.2)
  {
    assert (updates + [u])[..|updates|] == updates;
  }

  /** Replaying two runs of updates one after the other is replaying them
      together. */
  lemma {:induction false} ReplayAppend(jobs: map<string, Job>, first: seq<(string, int, string)>, second: seq<(string, int, string)>)
    ensures Replay(Replay(jobs, first), second) == Replay(jobs, first + second)
    decreases |second|
  {
    if second != [] {
      var init := second[..|second| - 1];
      ReplayAppend(jobs, first, init);
      assert (first + second)[..|first + second| - 1] == first + init;
      assert (first + second)[|first + second| - 1] == second[|second| - 1];
    } else {
      assert first + second == first;
    }
  }

  /** The store. `log` records every progress update, in order. */
  class Store {
    var jobs: map<string, Job>
    ghost var log: seq<(string, int, string)>

    constructor ()
      ensures jobs == map[] && log == []
    {
      jobs := map[];
      log := [];
    }

    /** progress_store[job_id] = {...}: a new entry, replacing any entry with
        the same id. */
    method Create(id: string)
      modifies this
      ensures jobs == old(jobs)[id := Starting]
      ensures log == old(log)
    {
      jobs := jobs[id := Starting];
    }

    /** update_progress */
    method Update(id: string, progress: int, status: string)
      requires id in jobs
      modifies this
      ensures jobs == WithProgress(old(jobs), id, progress, status)
      ensures log == old(log) + [(id, progress, status)]
    {
      jobs := WithProgress(jobs, id, progress, status);
      log := log + [(id, progress, status)];
    }

    /** The update after the service returned. */
    method Complete(id: string, result: RunResult)
      requires id in jobs
      modifies this
      ensures jobs == WithCompletion(old(jobs), id, result)
      ensures log == old(log)
    {
      jobs := WithCompletion(jobs, id, result);
    }

    /** The update after the service raised. */
    method Fail(id: string, message: string)
      requires id in jobs
      modifies this
      ensures jobs == WithFailure(old(jobs), id, message)
      ensures log == old(log)
    {
      jobs := WithFailure(jobs, id, message);
    }

    /** Reading an entry. */
    method Lookup(id: string) returns (entry: Option<Job>)
      ensures entry == (if id in jobs then Some(jobs[id]) else None)
    {
      if id in jobs {
        entry := Some(jobs[id]);
      } else {
        entry := None;
      }
    }
  }
}
