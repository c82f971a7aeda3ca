/** The job lifecycle of the API (backend/app.py): a month's processing is
    started under a fresh job id, runs in the background, and its progress
    entry is read by polling. */
module App {
  import opened Common
  import opened Frames
  import opened OcrEngine
  import opened PostProcessing
  import opened ProgressStore
  import opened HrService

  /** The job id: the month, an underscore and the integer seconds of the
      request time. */
  function JobId(monthYear: string, seconds: nat): string
  {
    monthYear + "_" + NatToString(seconds)
  }

  /** The number of decimal digits the string ends with. */
  function TrailingDigits(s: string): (n: nat)
    ensures n <= |s|
  {
    if s == [] || !IsDigit(s[|s| - 1]) then 0 else 1 + TrailingDigits(s[..|s| - 1])
  }

  /** The seconds are the digits after the last underscore. */
  lemma {:induction false} TrailingDigitsOfId(prefix: string, digits: string)
    requires AllDigits(digits)
    ensures TrailingDigits(prefix + "_" + digits) == |digits|
  {
    if digits != [] {
      var s := prefix + "_" + digits;
      assert s[..|s| - 1] == prefix + "_" + digits[..|digits| - 1];
      TrailingDigitsOfId(prefix, digits[..|digits| - 1]);
    }
  }

  /** Different requests get different ids unless they name the same month
      in the same second: the month may itself hold underscores and digits,
      but the seconds hold no underscore. */
  lemma JobIdInjective(m1: string, s1: nat, m2: string, s2: nat)
    requires JobId(m1, s1) == JobId(m2, s2)
    ensures m1 == m2 && s1 == s2
  {
    var id := JobId(m1, s1);
    var d1 := NatToString(s1);
    var d2 := NatToString(s2);
    TrailingDigitsOfId(m1, d1);
    TrailingDigitsOfId(m2, d2);
    assert d1 == id[|id| - |d1|..] == d2;
    NatToStringInjective(s1, s2);
    assert m1 == id[..|m1|] == m2;
  }

  /** POST /api/process/month: the new entry, under the id of the month and
      the request second. A request for the same month in the same second
      replaces the earlier entry. */
  method ProcessMonth(store: Store, monthYear: string, seconds: nat) returns (id: string)
    modifies store
    ensures id == JobId(monthYear, seconds)
    ensures store.jobs == old(store.jobs)[id := Starting]
    ensures store.log == old(store.log)
  {
    id := JobId(monthYear, seconds);
    store.Create(id);
  }

  /** What GET /api/process/progress/{job_id} answers. */
  datatype ProgressReply = JobNotFound | Entry(job: Job)

  /** GET /api/process/progress/{job_id}: the stored entry as it is, or the
      not-found error. */
  method GetProgress(store: Store, id: string) returns (reply: ProgressReply)
    ensures reply.JobNotFound? <==> id !in store.jobs
    ensures reply.Entry? ==> reply.job == store.jobs[id]
  {
    var entry := store.Lookup(id);
    if entry.None? {
      reply := JobNotFound;
    } else {
      reply := Entry(entry.value);
    }
  }

  /** How the call of the service ended: it returned a result dictionary, or
      it raised with a message. */
  datatype ServiceOutcome = Returned(result: RunResult) | Raised(message: string)

  /** The entry after the service ended. */
  function Finished(jobs: map<string, Job>, id: string, outcome: ServiceOutcome): (r: map<string, Job>)
    requires id in jobs
    ensures r.Keys == jobs.Keys
    ensures r[id].completed
    ensures forall other :: other in jobs && other != id ==> r[other] == jobs[other]
  {
    match outcome
    case Returned(result) => WithCompletion(jobs, id, result)
    case Raised(message) => WithFailure(jobs, id, message)
  }

  /** The two branches of process_month_background after the call. */
  method FinishJob(store: Store, id: string, outcome: ServiceOutcome)
    requires id in store.jobs
    modifies store
    ensures store.jobs == Finished(old(store.jobs), id, outcome)
    ensures store.log == old(store.log)
  {
    match outcome {
      case Returned(result) => store.Complete(id, result);
      case Raised(message) => store.Fail(id, message);
    }
  }

  /** A job created by ProcessMonth and moved only by progress updates
      ends, when the service returns, at 100 and 'Completed' with the
      result and no error, whatever the result's message says; when the
      service raises, at 0 with the message as status and error and no
      result. */
  lemma {:induction false} FinishedEntry(jobs: map<string, Job>, id: string, updates: seq<(string, int, string)>,
                                         outcome: ServiceOutcome)
    ensures var created := jobs[id := Starting];
      var entry := Finished(Replay(created, updates), id, outcome)[id];
      && (outcome.Returned? ==> entry == Job(100, "Completed", true, None, Some(outcome.result)))
      && (outcome.Raised? ==> entry == Job(0, "Error: " + outcome.message, true, Some(outcome.message), None))
  {
    var created := jobs[id := Starting];
    ReplayTouchesOnlyProgress(created, updates);
  }

  /** process_month_background: the service runs, then the entry is
      completed with what it returned. The service catches every failure of
      its own and returns it as a message, so in this model the raising
      branch of FinishJob is never taken. */
  method ProcessMonthBackground(monthYear: string, id: string, store: Store, staging: StagingFile,
                                archive: Worksheet?, cfg: Config, src: Sources, errorText: Failure -> string)
    returns (outcome: ServiceOutcome)
    requires id in store.jobs
    requires staging.present || staging.lines == []
    modifies store, staging, archive
    ensures var e := RunOf(monthYear, id, cfg, src, if archive == null then None else Some(old(archive.values)), errorText);
      && outcome == Returned(e.result)
      && store.log == old(store.log) + e.log
      && store.jobs == Finished(Replay(old(store.jobs), e.log), id, outcome)
  {
    var result := ProcessMonthDataWithProgress(monthYear, id, store, staging, archive, cfg, src, errorText);
    outcome := Returned(result);
    FinishJob(store, id, outcome);
  }

  /** A request followed by its background run: the entry ends completed at
      100 with the run's result and no error, even when the run's message
      reports an error. */
  lemma RequestLifecycle(jobs: map<string, Job>, monthYear: string, seconds: nat, cfg: Config, src: Sources,
                         archive: Option<seq<seq<string>>>, errorText: Failure -> string)
    ensures var id := JobId(monthYear, seconds);
      var e := RunOf(monthYear, id, cfg, src, archive, errorText);
      var after := Finished(Replay(jobs[id := Starting], e.log), id, Returned(e.result));
      && after.Keys == jobs.Keys + {id}
      && after[id] == Job(100, "Completed", true, None, Some(e.result))
      && (forall other :: other in jobs && other != id ==> after[other] == jobs[other])
  {
    var id := JobId(monthYear, seconds);
    var e := RunOf(monthYear, id, cfg, src, archive, errorText);
    var created := jobs[id := Starting];
    FinishedEntry(jobs, id, e.log, Returned(e.result));
    ReplayTouchesOnlyProgress(created, e.log);
    RunIds(monthYear, id, cfg, src, archive, errorText);
  }
}
