/** The in-memory job table behind asynchronous generation: one record per job id,
    created running, merged into by progress callbacks and finished by
    `mark_completed` or `mark_failed`. Each method is one atomic step (the lock that
    serialises them is not modelled). */
module JobManager {
  import opened Common

  /** Progress of one knowledge unit; status is "pending", "stage1", "stage2" or
      "completed". */
  datatype KUProgress = KUProgress(kuId: string, title: string, status: string)

  datatype ProgressInfo = ProgressInfo(
    phase: string,
    overallPercent: real,
    currentKu: Option<string>,
    kuStage: Option<string>,
    kuProgress: seq<KUProgress>)

  datatype JobStatus = Running | Completed | Failed

  /** A job's result payload, such as `{"document_id": ...}`. */
  type JobResult = map<string, string>

  datatype Job = Job(
    jobId: string,
    jobType: string,
    status: JobStatus,
    progress: ProgressInfo,
    result: Option<JobResult>,
    error: Option<string>)

  /** The keys of a progress-update dictionary: `Some` means the key is present (its
      value may itself be None for current_ku and ku_stage). */
  datatype ProgressUpdate = ProgressUpdate(
    phase: Option<string>,
    overallPercent: Option<real>,
    currentKu: Option<Option<string>>,
    kuStage: Option<Option<string>>,
    kuProgress: Option<seq<KUProgress>>)

  const NoKeys := ProgressUpdate(None, None, None, None, None)

  /** The job `create_job` stores: running, nothing done yet, planning for a spec
      generation and executing for anything else. */
  function NewJob(jobId: string, jobType: string): (j: Job)
    ensures j.jobId == jobId && j.jobType == jobType
    ensures j.status == Running && j.result == None && j.error == None
    ensures j.progress.overallPercent == 0.0 && j.progress.kuProgress == []
    ensures j.progress.currentKu == None && j.progress.kuStage == None
    ensures j.progress.phase == "planning" <==> jobType == "spec_generation"
    ensures jobType != "spec_generation" ==> j.progress.phase == "executing"
  {
    Job(jobId, jobType, Running,
        ProgressInfo(if jobType == "spec_generation" then "planning" else "executing",
                     0.0, None, None, []),
        None, None)
  }

  function Pick<T>(key: Option<T>, current: T): T
  {
    if key.Some? then key.value else current
  }

  /** `update_progress`'s merge: exactly the keys present are overwritten. */
  function Merge(p: ProgressInfo, u: ProgressUpdate): (r: ProgressInfo)
    ensures u.phase.Some? ==> r.phase == u.phase.value
    ensures u.phase.None? ==> r.phase == p.phase
    ensures u.overallPercent.Some? ==> r.overallPercent == u.overallPercent.value
    ensures u.overallPercent.None? ==> r.overallPercent == p.overallPercent
    ensures u.currentKu.Some? ==> r.currentKu == u.currentKu.value
    ensures u.currentKu.None? ==> r.currentKu == p.currentKu
    ensures u.kuStage.Some? ==> r.kuStage == u.kuStage.value
    ensures u.kuStage.None? ==> r.kuStage == p.kuStage
    ensures u.kuProgress.Some? ==> r.kuProgress == u.kuProgress.value
    ensures u.kuProgress.None? ==> r.kuProgress == p.kuProgress
  {
    ProgressInfo(
      Pick(u.phase, p.phase),
      Pick(u.overallPercent, p.overallPercent),
      Pick(u.currentKu, p.currentKu),
      Pick(u.kuStage, p.kuStage),
      Pick(u.kuProgress, p.kuProgress))
  }

  /** Two updates in a row: the later one's keys win. */
  function Then(u1: ProgressUpdate, u2: ProgressUpdate): ProgressUpdate
  {
    ProgressUpdate(
      if u2.phase.Some? then u2.phase else u1.phase,
      if u2.overallPercent.Some? then u2.overallPercent else u1.overallPercent,
      if u2.currentKu.Some? then u2.currentKu else u1.currentKu,
      if u2.kuStage.Some? then u2.kuStage else u1.kuStage,
      if u2.kuProgress.Some? then u2.kuProgress else u1.kuProgress)
  }

  /** An empty update changes nothing, repeating an update changes nothing more, and
      two updates merge as one whose later keys win. */
  lemma MergeLaws(p: ProgressInfo, u1: ProgressUpdate, u2: ProgressUpdate)
    ensures Merge(p, NoKeys) == p
    ensures Merge(Merge(p, u1), u1) == Merge(p, u1)
    ensures Merge(Merge(p, u1), u2) == Merge(p, Then(u1, u2))
  {
  }

  /** `mark_completed` on one job: completed, result stored, progress at 100. */
  function CompleteJob(j: Job, result: JobResult): (r: Job)
    ensures r.status == Completed && r.result == Some(result)
    ensures r.progress == j.progress.(overallPercent := 100.0)
    ensures r.jobId == j.jobId && r.jobType == j.jobType && r.error == j.error
  {
    j.(status := Completed, result := Some(result),
       progress := j.progress.(overallPercent := 100.0))
  }

  /** `mark_failed` on one job: failed with the message; progress and result kept. */
  function FailJob(j: Job, error: string): (r: Job)
    ensures r.status == Failed && r.error == Some(error)
    ensures r.progress == j.progress && r.result == j.result
    ensures r.jobId == j.jobId && r.jobType == j.jobType
  {
    j.(status := Failed, error := Some(error))
  }

  /** Finishing twice with the same argument is the same as finishing once; but
      nothing stops a finished job from being finished again differently. */
  lemma FinishLaws(j: Job, result: JobResult, error: string)
    ensures CompleteJob(CompleteJob(j, result), result) == CompleteJob(j, result)
    ensures FailJob(FailJob(j, error), error) == FailJob(j, error)
    ensures FailJob(CompleteJob(j, result), error).status == Failed
    ensures CompleteJob(FailJob(j, error), result).status == Completed
  {
  }

  /** `JobManager`: the table from job id to job. */
  class JobTable {
    var jobs: map<string, Job>

    constructor ()
      ensures jobs == map[]
    {
      jobs := map[];
    }

    /** Stores a new running job under a fresh id (a uuid4 in the running system). */
    method CreateJob(freshId: string, jobType: string) returns (jobId: string)
      requires freshId !in jobs
      modifies this
      ensures jobId == freshId && jobId !in old(jobs)
      ensures jobs == old(jobs)[jobId := NewJob(jobId, jobType)]
    {
      jobId := freshId;
      jobs := jobs[jobId := NewJob(jobId, jobType)];
    }

    /** Merges the keys present into a known job's progress; an unknown id is ignored. */
    method UpdateProgress(jobId: string, update: ProgressUpdate)
      modifies this
      ensures jobId !in old(jobs) ==> jobs == old(jobs)
      ensures jobId in old(jobs) ==>
                jobs == old(jobs)[jobId := old(jobs)[jobId].(progress := Merge(old(jobs)[jobId].progress, update))]
    {
      if jobId !in jobs {
        return;
      }
      var job := jobs[jobId];
      jobs := jobs[jobId := job.(progress := Merge(job.progress, update))];
    }

    /** The job stored under the id, or None; reading never changes the table. */
    function GetStatus(jobId: string): (r: Option<Job>)
      reads this
      ensures r.Some? <==> jobId in jobs
      ensures r.Some? ==> r.value == jobs[jobId]
    {
      if jobId in jobs then Some(jobs[jobId]) else None
    }

    method MarkCompleted(jobId: string, result: JobResult)
      modifies this
      ensures jobId !in old(jobs) ==> jobs == old(jobs)
      ensures jobId in old(jobs) ==> jobs == old(jobs)[jobId := CompleteJob(old(jobs)[jobId], result)]
    {
      if jobId in jobs {
        jobs := jobs[jobId := CompleteJob(jobs[jobId], result)];
      }
    }

    method MarkFailed(jobId: string, error: string)
      modifies this
      ensures jobId !in old(jobs) ==> jobs == old(jobs)
      ensures jobId in old(jobs) ==> jobs == old(jobs)[jobId := FailJob(old(jobs)[jobId], error)]
    {
      if jobId in jobs {
        jobs := jobs[jobId := FailJob(jobs[jobId], error)];
      }
    }
  }

  /** Creating jobs one after another under distinct fresh ids: every one of them
      is retrievable afterwards with the state `create_job` gave it, and the jobs
      already in the table are untouched. */
  method CreateJobs(table: JobTable, freshIds: seq<string>, jobType: string) returns (created: seq<string>)
    requires forall i, j :: 0 <= i < j < |freshIds| ==> freshIds[i] != freshIds[j]
    requires forall id :: id in freshIds ==> id !in table.jobs
    modifies table
    ensures created == freshIds
    ensures forall id :: id in created ==> table.GetStatus(id) == Some(NewJob(id, jobType))
    ensures forall id :: id in old(table.jobs) ==> id in table.jobs && table.jobs[id] == old(table.jobs)[id]
  {
    created := [];
    var i := 0;
    while i < |freshIds|
      invariant 0 <= i <= |freshIds|
      invariant created == freshIds[..i]
      invariant forall id :: id in created ==> table.GetStatus(id) == Some(NewJob(id, jobType))
      invariant forall id :: id in freshIds[i..] ==> id !in table.jobs
      invariant forall id :: id in old(table.jobs) ==> id in table.jobs && table.jobs[id] == old(table.jobs)[id]
    {
      var id := table.CreateJob(freshIds[i], jobType);
      created := created + [id];
      i := i + 1;
    }
  }
}
