/** Document generation as a background job: the service sets up a per-unit progress
    list, turns every progress report of the executor into a job update with an
    overall percentage, evaluates the generated document and stores its record.

    The executor and the evaluator are parameters: the executor as the reports it
    made and what its `run` returned or raised, the evaluator as a function of the
    generated document. The job's thread, the output directory and the clock are
    left out; the document id and timestamp are supplied by the caller. */
module DocumentService {
  import opened Common
  import opened Models
  import opened JobManager
  import ExecutorWithProgress

  type Event = ExecutorWithProgress.Event

  const Pending := "pending"
  const Stage1 := "stage1"
  const Stage2 := "stage2"
  const Done := "completed"

  // ---------------------------------------------------------------------------
  // The progress list

  /** The list `_execute_generation` starts from: unit i (0-based) is tracked under
      scope id ku(i+1), titled with its spec id, and pending. */
  function InitialProgress(units: seq<KnowledgeUnitSpec>): (r: seq<KUProgress>)
    ensures |r| == |units|
    ensures forall i :: 0 <= i < |units| ==> r[i] == KUProgress(ScopeId(i + 1), units[i].id, Pending)
  {
    if units == [] then []
    else InitialProgress(units[..|units| - 1]) + [KUProgress(ScopeId(|units|), units[|units| - 1].id, Pending)]
  }

  /** The list for one more unit ends with that unit's entry. */
  lemma InitialProgressStep(units: seq<KnowledgeUnitSpec>, idx: nat)
    requires 1 <= idx <= |units|
    ensures InitialProgress(units[..idx]) ==
            InitialProgress(units[..idx - 1]) + [KUProgress(ScopeId(idx), units[idx - 1].id, Pending)]
  {
    assert units[..idx][..idx - 1] == units[..idx - 1];
  }

  /** The loop that builds the list, numbering units from 1. */
  method BuildProgressList(units: seq<KnowledgeUnitSpec>) returns (list: array<KUProgress>)
    ensures fresh(list)
    ensures list[..] == InitialProgress(units)
  {
    var built: seq<KUProgress> := [];
    var idx := 1;
    while idx <= |units|
      invariant 1 <= idx <= |units| + 1
      invariant built == InitialProgress(units[..idx - 1])
    {
      InitialProgressStep(units, idx);
      built := built + [KUProgress(ScopeId(idx), units[idx - 1].id, Pending)];
      idx := idx + 1;
    }
    assert units[..idx - 1] == units;
    list := new KUProgress[|built|](i requires 0 <= i < |built| => built[i]);
  }

  /** The position of the first entry tracked under kuId. */
  function FirstWith(s: seq<KUProgress>, kuId: string): (r: Option<nat>)
    ensures r.Some? ==> r.value < |s| && s[r.value].kuId == kuId
    ensures r.Some? ==> forall j :: 0 <= j < r.value ==> s[j].kuId != kuId
    ensures r.None? ==> forall j :: 0 <= j < |s| ==> s[j].kuId != kuId
  {
    if s == [] then None
    else if s[0].kuId == kuId then Some(0)
    else match FirstWith(s[1..], kuId)
      case None => None
      case Some(k) => Some(k + 1)
  }

  /** The list after the first entry tracked under kuId takes the new status. */
  function SetFirst(s: seq<KUProgress>, kuId: string, stage: string): (r: seq<KUProgress>)
    ensures |r| == |s|
    ensures forall i :: 0 <= i < |s| ==> r[i].kuId == s[i].kuId && r[i].title == s[i].title
  {
    match FirstWith(s, kuId)
    case None => s
    case Some(i) => s[i := s[i].(status := stage)]
  }

  /** The search loop of `_progress_callback`: the first matching entry is updated
      in place and the search stops. */
  method SetStatus(list: array<KUProgress>, kuId: string, stage: string)
    modifies list
    ensures list[..] == SetFirst(old(list[..]), kuId, stage)
  {
    var i := 0;
    while i < list.Length
      invariant 0 <= i <= list.Length
      invariant list[..] == old(list[..])
      invariant forall j :: 0 <= j < i ==> list[j].kuId != kuId
    {
      if list[i].kuId == kuId {
        list[i] := list[i].(status := stage);
        return;
      }
      i := i + 1;
    }
  }

  /** Python truthiness of an optional string: present and non-empty. */
  predicate Truthy(o: Option<string>)
  {
    o.Some? && o.value != ""
  }

  /** The list after one report: only a report naming both a unit and a stage
      changes it. */
  function ApplyReport(s: seq<KUProgress>, kuId: Option<string>, stage: Option<string>): seq<KUProgress>
  {
    if Truthy(kuId) && Truthy(stage) then SetFirst(s, kuId.value, stage.value) else s
  }

  /** The list after a sequence of reports. */
  function ApplyEvents(s: seq<KUProgress>, es: seq<Event>): (r: seq<KUProgress>)
    ensures |r| == |s|
    ensures forall i :: 0 <= i < |s| ==> r[i].kuId == s[i].kuId && r[i].title == s[i].title
  {
    if es == [] then s
    else
      var e := es[|es| - 1];
      ApplyReport(ApplyEvents(s, es[..|es| - 1]), e.kuId, e.stage)
  }

  // ---------------------------------------------------------------------------
  // The overall percentage

  /** `sum(1 for ku in list if ku.status == status)`. */
  function Count(s: seq<KUProgress>, status: string): (c: nat)
    ensures c <= |s|
  {
    if s == [] then 0
    else Count(s[..|s| - 1], status) + (if s[|s| - 1].status == status then 1 else 0)
  }

  /** The loop behind one such sum. */
  method CountStatus(list: array<KUProgress>, status: string) returns (c: nat)
    ensures c == Count(list[..], status)
  {
    c := 0;
    var i := 0;
    while i < list.Length
      invariant 0 <= i <= list.Length
      invariant c == Count(list[..i], status)
    {
      assert list[..i + 1][..i] == list[..i];
      if list[i].status == status {
        c := c + 1;
      }
      i := i + 1;
    }
    assert list[..i] == list[..];
  }

  /** The weighted sum behind the percentage. */
  function ProgressSum(s: seq<KUProgress>): real
  {
    Count(s, Done) as real + Count(s, Stage2) as real * 0.75 + Count(s, Stage1) as real * 0.25
  }

  /** A completed unit counts whole, one in stage 2 three quarters and one in
      stage 1 a quarter; an empty list is at 0. */
  function Percent(s: seq<KUProgress>): real
  {
    if |s| > 0 then (ProgressSum(s) / |s| as real) * 100.0 else 0.0
  }

  /** The three counted statuses are different, so their counts add up to at most
      the list's length. */
  lemma {:induction false} CountsDisjoint(s: seq<KUProgress>)
    ensures Count(s, Done) + Count(s, Stage2) + Count(s, Stage1) <= |s|
  {
    if s != [] {
      CountsDisjoint(s[..|s| - 1]);
      assert Done[0] != Stage2[0] && Stage1[5] != Stage2[5];
    }
  }

  /** Every entry has the status exactly when the count is the length. */
  lemma {:induction false} CountFull(s: seq<KUProgress>, status: string)
    ensures Count(s, status) == |s| <==> forall i :: 0 <= i < |s| ==> s[i].status == status
  {
    if s != [] {
      var pre := s[..|s| - 1];
      CountFull(pre, status);
      assert forall i :: 0 <= i < |pre| ==> pre[i] == s[i];
    }
  }

  /** A share of a positive whole, as a percentage, is between 0 and 100. */
  lemma RatioBounds(part: real, whole: real)
    requires 0.0 < whole && 0.0 <= part <= whole
    ensures 0.0 <= (part / whole) * 100.0 <= 100.0
    ensures (part / whole) * 100.0 == 100.0 <==> part == whole
  {
    var q := part / whole;
    assert q * whole == part;
  }

  /** The percentage stays within 0 and 100. */
  lemma PercentBounds(s: seq<KUProgress>)
    ensures 0.0 <= Percent(s) <= 100.0
  {
    if |s| > 0 {
      CountsDisjoint(s);
      assert Percent(s) == (ProgressSum(s) / |s| as real) * 100.0;
      RatioBounds(ProgressSum(s), |s| as real);
    }
  }

  /** A non-empty list is at 100 exactly when every unit is completed. */
  lemma PercentFullIff(s: seq<KUProgress>)
    requires s != []
    ensures Percent(s) == 100.0 <==> forall i :: 0 <= i < |s| ==> s[i].status == Done
  {
    CountsDisjoint(s);
    CountFull(s, Done);
    assert Percent(s) == (ProgressSum(s) / |s| as real) * 100.0;
    RatioBounds(ProgressSum(s), |s| as real);
  }

  // ---------------------------------------------------------------------------
  // A whole run's reports

  /** One more report updates the list the earlier ones left. */
  lemma ApplyEventsSnoc(s: seq<KUProgress>, es: seq<Event>, e: Event)
    ensures ApplyEvents(s, es + [e]) == ApplyReport(ApplyEvents(s, es), e.kuId, e.stage)
  {
    assert (es + [e])[..|es|] == es;
  }

  /** Setting the status of the first entry under kuId changes that entry alone, and
      it stays the first under kuId. */
  lemma SetFirstAt(s: seq<KUProgress>, kuId: string, stage: string, i: nat)
    requires FirstWith(s, kuId) == Some(i)
    ensures SetFirst(s, kuId, stage) == s[i := s[i].(status := stage)]
    ensures FirstWith(SetFirst(s, kuId, stage), kuId) == Some(i)
  {
    var r := SetFirst(s, kuId, stage);
    assert r[i].kuId == kuId;
    assert forall j :: 0 <= j < i ==> r[j].kuId != kuId;
  }

  /** A report naming a unit and a stage sets the status of that unit's first entry. */
  lemma ReportSets(init: seq<KUProgress>, es: seq<Event>, e: Event, i: nat)
    requires e.kuId.Some? && e.kuId.value != "" && e.stage.Some? && e.stage.value != ""
    requires FirstWith(ApplyEvents(init, es), e.kuId.value) == Some(i)
    ensures ApplyEvents(init, es + [e]) == ApplyEvents(init, es)[i := ApplyEvents(init, es)[i].(status := e.stage.value)]
    ensures FirstWith(ApplyEvents(init, es + [e]), e.kuId.value) == Some(i)
  {
    ApplyEventsSnoc(init, es, e);
    SetFirstAt(ApplyEvents(init, es), e.kuId.value, e.stage.value, i);
  }

  /** Three reports on one unit: its first entry ends with the last one's stage. */
  lemma ThreeReports(init: seq<KUProgress>, prev: seq<Event>, e1: Event, e2: Event, e3: Event, i: nat)
    requires e1.kuId == e2.kuId == e3.kuId && e1.kuId.Some? && e1.kuId.value != ""
    requires e1.stage.Some? && e1.stage.value != "" && e2.stage.Some? && e2.stage.value != ""
    requires e3.stage.Some? && e3.stage.value != ""
    requires FirstWith(ApplyEvents(init, prev), e1.kuId.value) == Some(i)
    ensures ApplyEvents(init, prev + [e1, e2, e3]) ==
            ApplyEvents(init, prev)[i := ApplyEvents(init, prev)[i].(status := e3.stage.value)]
  {
    var p1, p2 := prev + [e1], prev + [e1] + [e2];
    ReportSets(init, prev, e1, i);
    ReportSets(init, p1, e2, i);
    ReportSets(init, p2, e3, i);
    assert prev + [e1, e2, e3] == p2 + [e3];
  }

  /** Unit k's three reports leave its entry completed and every other as it was. */
  lemma UnitReports(prev: seq<Event>, init: seq<KUProgress>, k: nat)
    requires 1 <= k && FirstWith(ApplyEvents(init, prev), ScopeId(k)) == Some(k - 1)
    ensures ApplyEvents(init, prev + ExecutorWithProgress.UnitEvents(k)) ==
            ApplyEvents(init, prev)[k - 1 := ApplyEvents(init, prev)[k - 1].(status := Done)]
  {
    var id := ScopeId(k);
    assert id != "" by { assert id[..2] == "ku"; }
    ThreeReports(init, prev, ExecutorWithProgress.UnitEvent(k, Stage1), ExecutorWithProgress.UnitEvent(k, Stage2),
                 ExecutorWithProgress.UnitEvent(k, Done), k - 1);
  }

  /** Reports of the units before position k leave every one of them completed, and
      the later ones as they started. */
  lemma {:induction false} EventsCompletePrefix(units: seq<KnowledgeUnitSpec>, k: nat)
    requires k <= |units|
    ensures var r := ApplyEvents(InitialProgress(units), ExecutorWithProgress.Events(k));
            && (forall i :: 0 <= i < k ==> r[i].status == Done)
            && (forall i :: k <= i < |units| ==> r[i] == InitialProgress(units)[i])
  {
    var init := InitialProgress(units);
    if k == 0 {
      ApplyEventsSnoc(init, [], ExecutorWithProgress.StartEvent());
      assert ExecutorWithProgress.Events(0) == [] + [ExecutorWithProgress.StartEvent()];
    } else {
      EventsCompletePrefix(units, k - 1);
      var prev := ExecutorWithProgress.Events(k - 1);
      var r0 := ApplyEvents(init, prev);
      ScopeIdsDistinct(r0, init, k);
      FirstWithIs(r0, ScopeId(k), k - 1);
      UnitReports(prev, init, k);
      assert ExecutorWithProgress.Events(k) == prev + ExecutorWithProgress.UnitEvents(k);
    }
  }

  /** An entry under kuId with none before it is the first one. */
  lemma FirstWithIs(s: seq<KUProgress>, kuId: string, i: nat)
    requires i < |s| && s[i].kuId == kuId
    requires forall j :: 0 <= j < i ==> s[j].kuId != kuId
    ensures FirstWith(s, kuId) == Some(i)
  {
  }

  /** In a list with the initial scope ids, ku(k) is tracked at position k - 1 alone. */
  lemma ScopeIdsDistinct(r: seq<KUProgress>, init: seq<KUProgress>, k: nat)
    requires 1 <= k <= |init| && |r| == |init|
    requires forall i :: 0 <= i < |init| ==> init[i].kuId == ScopeId(i + 1)
    requires forall i :: 0 <= i < |r| ==> r[i].kuId == init[i].kuId
    ensures r[k - 1].kuId == ScopeId(k)
    ensures forall j :: 0 <= j < k - 1 ==> r[j].kuId != ScopeId(k)
  {
    forall j | 0 <= j < k - 1 ensures r[j].kuId != ScopeId(k) {
      if r[j].kuId == ScopeId(k) {
        ScopeIdInjective(j + 1, k);
      }
    }
  }

  /** The reports of a complete run leave every unit completed, so the last report
      puts the job at 100 percent. */
  lemma EventsCompleteAll(units: seq<KnowledgeUnitSpec>)
    requires units != []
    ensures var r := ApplyEvents(InitialProgress(units), ExecutorWithProgress.Events(|units|));
            && |r| == |units|
            && (forall i :: 0 <= i < |units| ==> r[i].kuId == ScopeId(i + 1) && r[i].title == units[i].id && r[i].status == Done)
            && Percent(r) == 100.0
  {
    EventsCompletePrefix(units, |units|);
    var r := ApplyEvents(InitialProgress(units), ExecutorWithProgress.Events(|units|));
    PercentFullIff(r);
  }

  // ---------------------------------------------------------------------------
  // Job updates

  /** The first update of a generation job: executing, at 0, with the fresh list. */
  function StartUpdate(list: seq<KUProgress>): ProgressUpdate
  {
    ProgressUpdate(Some(Executing), Some(0.0), None, None, Some(list))
  }

  const Executing := "executing"
  const Evaluating := "evaluating"
  const EvaluatingPercent: real := 95.0

  /** The update one report makes, from the list after the report. */
  function ReportUpdate(e: Event, list: seq<KUProgress>): ProgressUpdate
  {
    ProgressUpdate(Some(e.phase), Some(Percent(list)), Some(e.kuId), Some(e.stage), Some(list))
  }

  /** The update once the executor has returned. */
  function EvaluatingUpdate(list: seq<KUProgress>): ProgressUpdate
  {
    ProgressUpdate(Some(Evaluating), Some(EvaluatingPercent), Some(None), Some(None), Some(list))
  }

  /** A job's progress after the reports, starting from p with the list init. */
  function Reported(p: ProgressInfo, init: seq<KUProgress>, es: seq<Event>): ProgressInfo
  {
    if es == [] then p
    else Merge(Reported(p, init, es[..|es| - 1]), ReportUpdate(es[|es| - 1], ApplyEvents(init, es)))
  }

  /** One more report merges its update into the progress the earlier ones left. */
  lemma ReportedSnoc(p: ProgressInfo, init: seq<KUProgress>, es: seq<Event>, e: Event)
    ensures Reported(p, init, es + [e]) == Merge(Reported(p, init, es), ReportUpdate(e, ApplyEvents(init, es + [e])))
  {
    assert (es + [e])[..|es|] == es;
  }

  /** After at least one report, the job shows the last report's phase, unit and
      stage, the list as it then stood, and the percentage of that list. */
  lemma ReportedShowsLast(p: ProgressInfo, init: seq<KUProgress>, es: seq<Event>)
    requires es != []
    ensures var q := Reported(p, init, es);
            && q.phase == es[|es| - 1].phase
            && q.currentKu == es[|es| - 1].kuId && q.kuStage == es[|es| - 1].stage
            && q.kuProgress == ApplyEvents(init, es)
            && q.overallPercent == Percent(ApplyEvents(init, es))
            && 0.0 <= q.overallPercent <= 100.0
  {
    PercentBounds(ApplyEvents(init, es));
  }

  /** What the job stores about the evaluation. */
  datatype EvaluationData =
    | Evaluated(score: Option<string>, feedback: Option<string>)
    | EvaluationError(message: string)

  /** The evaluator's answer: the score and feedback attributes it has, or the
      message of what it raised. */
  datatype EvaluationResult = EvaluationResult(score: Option<string>, feedback: Option<string>)

  function EvaluationDataOf(r: Result<EvaluationResult, string>): (d: EvaluationData)
    ensures d.EvaluationError? <==> r.Err?
    ensures r.Ok? ==> d == Evaluated(r.value.score, r.value.feedback)
    ensures r.Err? ==> d == EvaluationError(r.error)
  {
    match r
    case Ok(v) => Evaluated(v.score, v.feedback)
    case Err(msg) => EvaluationError(msg)
  }

  /** The metadata stored for a generated document. */
  datatype DocumentRecord = DocumentRecord(
    documentId: string,
    createdAt: string,
    specId: string,
    htmlFilePath: string,
    evaluation: EvaluationData)

  /** What the executor did: the reports it made, in order, and the document it
      returned or the message of what it raised. */
  datatype ExecutorRun = ExecutorRun(events: seq<Event>, outcome: Result<GeneratedDocument, string>)

  /** The stored job after a generation. */
  function FinishedJob(j: Job, units: seq<KnowledgeUnitSpec>, run: ExecutorRun, documentId: string): Job
  {
    var init := InitialProgress(units);
    var reported := j.(progress := Reported(Merge(j.progress, StartUpdate(init)), init, run.events));
    Concluded(reported, run.outcome, ApplyEvents(init, run.events), documentId)
  }

  /** On success the job is completed with the document id and shows the evaluating
      update at 100 percent with the list the reports left; on failure it is failed
      with the message and shows what the reports made of it. */
  lemma FinishedJobState(j: Job, units: seq<KnowledgeUnitSpec>, run: ExecutorRun, documentId: string)
    ensures var r := FinishedJob(j, units, run, documentId);
            && r.jobId == j.jobId && r.jobType == j.jobType
            && (run.outcome.Ok? ==> r.status == Completed && r.result == Some(map["document_id" := documentId]))
            && (run.outcome.Ok? ==>
                  r.progress == ProgressInfo(Evaluating, 100.0, None, None, ApplyEvents(InitialProgress(units), run.events)))
            && (run.outcome.Err? ==> r.status == Failed && r.error == Some(run.outcome.error) && r.result == j.result)
            && (run.outcome.Err? ==>
                  r.progress == Reported(Merge(j.progress, StartUpdate(InitialProgress(units))), InitialProgress(units), run.events))
  {
  }

  /** `FinishedJob` step by step: the start update, the reports, the conclusion. */
  lemma FinishedJobSteps(j: Job, units: seq<KnowledgeUnitSpec>, run: ExecutorRun, documentId: string)
    ensures var init := InitialProgress(units);
            var started := j.(progress := Merge(j.progress, StartUpdate(init)));
            var reported := started.(progress := Reported(started.progress, init, run.events));
            FinishedJob(j, units, run, documentId) == Concluded(reported, run.outcome, ApplyEvents(init, run.events), documentId)
  {
  }

  /** A second update of a key replaces the first. */
  lemma UpdateTwice<K, V>(m: map<K, V>, k: K, a: V, b: V)
    ensures m[k := a][k := b] == m[k := b]
  {
  }

  /** The job once the executor has returned (with the list as it then stands) or
      raised. */
  function Concluded(j: Job, outcome: Result<GeneratedDocument, string>, list: seq<KUProgress>, documentId: string): Job
  {
    match outcome
    case Ok(_) => CompleteJob(j.(progress := Merge(j.progress, EvaluatingUpdate(list))), map["document_id" := documentId])
    case Err(msg) => FailJob(j, msg)
  }

  /** A generation the executor completes leaves the job completed at 100 percent
      with every unit completed. */
  lemma CompletedRunJob(j: Job, units: seq<KnowledgeUnitSpec>, doc: GeneratedDocument, documentId: string)
    requires units != []
    ensures var run := ExecutorRun(ExecutorWithProgress.Events(|units|), Ok(doc));
            var r := FinishedJob(j, units, run, documentId);
            && r.status == Completed && r.progress.overallPercent == 100.0
            && |r.progress.kuProgress| == |units|
            && forall i :: 0 <= i < |units| ==> r.progress.kuProgress[i].status == Done
  {
    EventsCompleteAll(units);
    FinishedJobState(j, units, ExecutorRun(ExecutorWithProgress.Events(|units|), Ok(doc)), documentId);
  }

  /** A generation whose executor raised before reporting anything leaves the job
      failed at 0 percent, with every unit pending. */
  lemma FailedBeforeReportsJob(j: Job, units: seq<KnowledgeUnitSpec>, msg: string, documentId: string)
    ensures var r := FinishedJob(j, units, ExecutorRun([], Err(msg)), documentId);
            && r.status == Failed && r.error == Some(msg)
            && r.progress.phase == Executing && r.progress.overallPercent == 0.0
            && forall i :: 0 <= i < |units| ==> r.progress.kuProgress[i].status == Pending
  {
  }

  // ---------------------------------------------------------------------------
  // The service

  class DocumentService {
    const jobManager: JobTable
    /** document id -> metadata */
    var documents: map<string, DocumentRecord>
    /** document id -> spec id */
    var documentSpecs: map<string, string>
    /** job id -> spec id */
    var jobSpecs: map<string, string>

    constructor (jobManager: JobTable)
      ensures this.jobManager == jobManager
      ensures documents == map[] && documentSpecs == map[] && jobSpecs == map[]
    {
      this.jobManager := jobManager;
      documents := map[];
      documentSpecs := map[];
      jobSpecs := map[];
    }

    /** `generate_document`: a new document-generation job (under a fresh id), its
        spec remembered; starting the job's thread is left out. */
    method GenerateDocument(freshJobId: string, specId: string) returns (jobId: string)
      requires freshJobId !in jobManager.jobs
      modifies this, jobManager
      ensures jobId == freshJobId
      ensures jobManager.jobs == old(jobManager.jobs)[jobId := NewJob(jobId, "document_generation")]
      ensures jobSpecs == old(jobSpecs)[jobId := specId]
      ensures documents == old(documents) && documentSpecs == old(documentSpecs)
    {
      jobId := jobManager.CreateJob(freshJobId, "document_generation");
      jobSpecs := jobSpecs[jobId := specId];
    }

    /** `_progress_callback`: the report's unit takes the report's stage, then the
        job shows the report and the percentage of the updated list. */
    method ProgressCallback(jobId: string, phase: string, kuId: Option<string>, stage: Option<string>,
                            list: array<KUProgress>)
      modifies list, jobManager
      ensures list[..] == ApplyReport(old(list[..]), kuId, stage)
      ensures jobId !in old(jobManager.jobs) ==> jobManager.jobs == old(jobManager.jobs)
      ensures jobId in old(jobManager.jobs) ==>
                jobManager.jobs == old(jobManager.jobs)[jobId := old(jobManager.jobs)[jobId].(progress :=
                  Merge(old(jobManager.jobs)[jobId].progress,
                        ReportUpdate(ExecutorWithProgress.Event(phase, kuId, stage), list[..])))]
    {
      if Truthy(kuId) && Truthy(stage) {
        SetStatus(list, kuId.value, stage.value);
      }
      var overallPercent: real;
      var totalKus := list.Length;
      if totalKus > 0 {
        var completedCount := CountStatus(list, Done);
        var stage1Count := CountStatus(list, Stage1);
        var stage2Count := CountStatus(list, Stage2);
        var progressSum := completedCount as real + stage2Count as real * 0.75 + stage1Count as real * 0.25;
        overallPercent := (progressSum / totalKus as real) * 100.0;
      } else {
        overallPercent := 0.0;
      }
      assert overallPercent == Percent(list[..]);
      jobManager.UpdateProgress(jobId, ProgressUpdate(Some(phase), Some(overallPercent), Some(kuId), Some(stage), Some(list[..])));
    }

    /** The executor's reports during `run`, each passed to the progress callback
        in order. */
    method ReportAll(jobId: string, events: seq<Event>, list: array<KUProgress>)
      modifies list, jobManager
      ensures list[..] == ApplyEvents(old(list[..]), events)
      ensures jobId !in old(jobManager.jobs) ==> jobManager.jobs == old(jobManager.jobs)
      ensures jobId in old(jobManager.jobs) ==>
                jobManager.jobs == old(jobManager.jobs)[jobId := old(jobManager.jobs)[jobId].(progress :=
                  Reported(old(jobManager.jobs)[jobId].progress, old(list[..]), events))]
    {
      ghost var init := list[..];
      ghost var j0 := if jobId in jobManager.jobs then jobManager.jobs[jobId] else NewJob(jobId, "");
      var i := 0;
      while i < |events|
        invariant 0 <= i <= |events|
        invariant list[..] == ApplyEvents(init, events[..i])
        invariant jobId !in old(jobManager.jobs) ==> jobManager.jobs == old(jobManager.jobs)
        invariant jobId in old(jobManager.jobs) ==>
                    jobManager.jobs == old(jobManager.jobs)[jobId := j0.(progress := Reported(j0.progress, init, events[..i]))]
      {
        var e := events[i];
        assert events[..i + 1] == events[..i] + [e];
        ApplyEventsSnoc(init, events[..i], e);
        ReportedSnoc(j0.progress, init, events[..i], e);
        ProgressCallback(jobId, e.phase, e.kuId, e.stage, list);
        i := i + 1;
      }
      assert events[..i] == events;
    }

    /** `_execute_generation`: the progress list, every report of the executor, and
        then either the failure of the job, or the evaluating update, the evaluation,
        the stored document and the completion of the job. */
    method ExecuteGeneration(jobId: string, specId: string, spec: DocumentSpec, run: ExecutorRun,
                             evaluate: GeneratedDocument -> Result<EvaluationResult, string>,
                             documentId: string, createdAt: string)
      modifies this, jobManager
      ensures jobId !in old(jobManager.jobs) ==> jobManager.jobs == old(jobManager.jobs)
      ensures jobId in old(jobManager.jobs) ==>
                jobManager.jobs == old(jobManager.jobs)[jobId :=
                  FinishedJob(old(jobManager.jobs)[jobId], spec.knowledgeUnits, run, documentId)]
      ensures run.outcome.Ok? ==>
                documents == old(documents)[documentId := DocumentRecord(documentId, createdAt, specId,
                  run.outcome.value.htmlFilePath, EvaluationDataOf(evaluate(run.outcome.value)))]
      ensures run.outcome.Ok? ==> documentSpecs == old(documentSpecs)[documentId := specId]
      ensures run.outcome.Err? ==> documents == old(documents) && documentSpecs == old(documentSpecs)
      ensures jobSpecs == old(jobSpecs)
    {
      var units := spec.knowledgeUnits;
      var list := BuildProgressList(units);
      jobManager.UpdateProgress(jobId, StartUpdate(list[..]));
      ghost var started := jobManager.jobs;
      ReportAll(jobId, run.events, list);
      ghost var reported := jobManager.jobs;
      Conclude(jobId, specId, run.outcome, evaluate, documentId, createdAt, list[..]);
      if jobId in old(jobManager.jobs) {
        var j := old(jobManager.jobs)[jobId];
        FinishedJobSteps(j, units, run, documentId);
        UpdateTwice(old(jobManager.jobs), jobId, started[jobId], reported[jobId]);
        UpdateTwice(old(jobManager.jobs), jobId, reported[jobId], jobManager.jobs[jobId]);
      }
    }

    /** The rest of `_execute_generation` once the executor has returned or raised. */
    method Conclude(jobId: string, specId: string, outcome: Result<GeneratedDocument, string>,
                    evaluate: GeneratedDocument -> Result<EvaluationResult, string>,
                    documentId: string, createdAt: string, list: seq<KUProgress>)
      modifies this, jobManager
      ensures jobId !in old(jobManager.jobs) ==> jobManager.jobs == old(jobManager.jobs)
      ensures jobId in old(jobManager.jobs) ==>
                jobManager.jobs == old(jobManager.jobs)[jobId := Concluded(old(jobManager.jobs)[jobId], outcome, list, documentId)]
      ensures outcome.Ok? ==>
                documents == old(documents)[documentId := DocumentRecord(documentId, createdAt, specId,
                  outcome.value.htmlFilePath, EvaluationDataOf(evaluate(outcome.value)))]
      ensures outcome.Ok? ==> documentSpecs == old(documentSpecs)[documentId := specId]
      ensures outcome.Err? ==> documents == old(documents) && documentSpecs == old(documentSpecs)
      ensures jobSpecs == old(jobSpecs)
    {
      match outcome {
        case Err(msg) =>
          jobManager.MarkFailed(jobId, msg);
        case Ok(generatedDoc) =>
          jobManager.UpdateProgress(jobId, EvaluatingUpdate(list));
          var evaluationData := EvaluationDataOf(evaluate(generatedDoc));
          documents := documents[documentId := DocumentRecord(documentId, createdAt, specId,
                                                              generatedDoc.htmlFilePath, evaluationData)];
          documentSpecs := documentSpecs[documentId := specId];
          jobManager.MarkCompleted(jobId, map["document_id" := documentId]);
      }
    }

    /** `get_document`: the stored metadata, or the `KeyError` for an unknown id. */
    function GetDocument(documentId: string): (r: Result<DocumentRecord, string>)
      reads this
      ensures r.Ok? <==> documentId in documents
      ensures r.Ok? ==> r.value == documents[documentId]
      ensures r.Err? ==> r.error == "Document not found: " + documentId
    {
      if documentId !in documents then Err("Document not found: " + documentId)
      else Ok(documents[documentId])
    }

    /** `get_spec_id_for_job`: the spec a job generates from, or None. */
    function GetSpecIdForJob(jobId: string): (r: Option<string>)
      reads this
      ensures r.Some? <==> jobId in jobSpecs
      ensures r.Some? ==> r.value == jobSpecs[jobId]
    {
      if jobId in jobSpecs then Some(jobSpecs[jobId]) else None
    }
  }
}
