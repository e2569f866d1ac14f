/** The executor variant that reports its progress to an optional callback: one
    "executing" event before any unit, then for unit i the events stage1, stage2 and
    completed around that unit's work. */
module ExecutorWithProgress {
  import opened Common
  import opened Models
  import opened Executor

  /** The arguments of one callback call: `(phase, ku_id, stage)`. */
  datatype Event = Event(phase: string, kuId: Option<string>, stage: Option<string>)

  /** What happens during `run`, in order: a progress report, or a piece of work on
      the unit with the given scope id. */
  datatype Step =
    | Reported(event: Event)
    | Stage1Work(scopeId: string)
    | Stage2Work(scopeId: string)
    | Validation(scopeId: string)

  const Executing := "executing"

  function StartEvent(): Event
  {
    Event(Executing, None, None)
  }

  function UnitEvent(idx: nat, stage: string): Event
  {
    Event(Executing, Some(ScopeId(idx)), Some(stage))
  }

  /** The three events of unit idx (1-based). */
  function UnitEvents(idx: nat): seq<Event>
  {
    [UnitEvent(idx, "stage1"), UnitEvent(idx, "stage2"), UnitEvent(idx, "completed")]
  }

  /** The events of a run over n units. */
  function Events(n: nat): (es: seq<Event>)
    ensures |es| == 1 + 3 * n
    ensures es[0] == StartEvent()
  {
    if n == 0 then [StartEvent()] else Events(n - 1) + UnitEvents(n)
  }

  /** Unit idx's stage-1 part: its stage1 event, then its stage-1 work. */
  function Stage1Steps(idx: nat): seq<Step>
  {
    [Reported(UnitEvent(idx, "stage1")), Stage1Work(ScopeId(idx))]
  }

  /** Unit idx's stage-2 part: its stage2 event, then its stage-2 work. */
  function Stage2Steps(idx: nat): seq<Step>
  {
    [Reported(UnitEvent(idx, "stage2")), Stage2Work(ScopeId(idx))]
  }

  /** Unit idx's last part: its validation, then its completed event. */
  function FinishSteps(idx: nat): seq<Step>
  {
    [Validation(ScopeId(idx)), Reported(UnitEvent(idx, "completed"))]
  }

  /** Unit idx's steps: its stage-1 work between its stage1 and stage2 events, its
      stage-2 work and validation between its stage2 and completed events. */
  function UnitSteps(idx: nat): (u: seq<Step>)
    ensures u == [Reported(UnitEvent(idx, "stage1")), Stage1Work(ScopeId(idx)),
                  Reported(UnitEvent(idx, "stage2")), Stage2Work(ScopeId(idx)),
                  Validation(ScopeId(idx)), Reported(UnitEvent(idx, "completed"))]
  {
    Stage1Steps(idx) + Stage2Steps(idx) + FinishSteps(idx)
  }

  /** Everything `run` does over n units, in order. */
  function Timeline(n: nat): (t: seq<Step>)
    ensures |t| == 1 + 6 * n
    ensures t[0] == Reported(StartEvent())
  {
    if n == 0 then [Reported(StartEvent())] else Timeline(n - 1) + UnitSteps(n)
  }

  /** The events among a sequence of steps. */
  function Reports(t: seq<Step>): seq<Event>
  {
    if t == [] then []
    else Reports(t[..|t| - 1]) + (if t[|t| - 1].Reported? then [t[|t| - 1].event] else [])
  }

  lemma {:induction false} ReportsAppend(t: seq<Step>, u: seq<Step>)
    ensures Reports(t + u) == Reports(t) + Reports(u)
    decreases |u|
  {
    if u == [] {
      assert t + u == t;
    } else {
      assert (t + u)[..|t + u| - 1] == t + u[..|u| - 1];
      ReportsAppend(t, u[..|u| - 1]);
    }
  }

  lemma ReportsSnoc(t: seq<Step>, s: Step)
    ensures Reports(t + [s]) == Reports(t) + (if s.Reported? then [s.event] else [])
  {
    assert (t + [s])[..|t|] == t;
  }

  /** Unit idx's reports are its three events. */
  lemma ReportsUnit(idx: nat)
    ensures Reports(UnitSteps(idx)) == UnitEvents(idx)
  {
    var u := UnitSteps(idx);
    var p0: seq<Step> := [];
    var p1 := p0 + [u[0]];
    var p2 := p1 + [u[1]];
    var p3 := p2 + [u[2]];
    var p4 := p3 + [u[3]];
    var p5 := p4 + [u[4]];
    var p6 := p5 + [u[5]];
    ReportsSnoc(p0, u[0]);
    ReportsSnoc(p1, u[1]);
    ReportsSnoc(p2, u[2]);
    ReportsSnoc(p3, u[3]);
    ReportsSnoc(p4, u[4]);
    ReportsSnoc(p5, u[5]);
    assert p6 == u;
  }

  /** The events a run reports are exactly the `Reported` steps of its timeline. */
  lemma {:induction false} TimelineReports(n: nat)
    ensures Reports(Timeline(n)) == Events(n)
  {
    if n == 0 {
      ReportsSnoc([], Reported(StartEvent()));
      assert [] + [Reported(StartEvent())] == Timeline(0);
    } else {
      TimelineReports(n - 1);
      ReportsAppend(Timeline(n - 1), UnitSteps(n));
      ReportsUnit(n);
    }
  }

  /** Unit i's steps occupy positions 1 + 6(i-1) .. 6i of the timeline, so everything
      for unit i precedes everything for unit i + 1. */
  lemma {:induction false} TimelineAt(n: nat, i: nat)
    requires 1 <= i <= n
    ensures Timeline(n)[1 + 6 * (i - 1)..1 + 6 * i] == UnitSteps(i)
  {
    if i < n {
      TimelineAt(n - 1, i);
      assert Timeline(n)[..|Timeline(n - 1)|] == Timeline(n - 1);
    } else {
      assert Timeline(n)[|Timeline(n - 1)|..] == UnitSteps(n);
    }
  }

  /** Unit i's events sit at positions 1 + 3(i-1) .. 3i of the event list. */
  lemma {:induction false} EventsAt(n: nat, i: nat)
    requires 1 <= i <= n
    ensures Events(n)[1 + 3 * (i - 1)..1 + 3 * i] == UnitEvents(i)
  {
    if i < n {
      EventsAt(n - 1, i);
      assert Events(n)[..|Events(n - 1)|] == Events(n - 1);
    } else {
      assert Events(n)[|Events(n - 1)|..] == UnitEvents(n);
    }
  }

  /** The timeline after unit n + 1's three parts. */
  lemma TimelineStep(t0: seq<Step>, n: nat)
    ensures t0 + Timeline(n) + Stage1Steps(n + 1) + Stage2Steps(n + 1) + FinishSteps(n + 1) ==
            t0 + Timeline(n + 1)
  {
    var a, b, c := Stage1Steps(n + 1), Stage2Steps(n + 1), FinishSteps(n + 1);
    assert Timeline(n + 1) == Timeline(n) + (a + b + c);
    assert t0 + Timeline(n) + a + b + c == t0 + (Timeline(n) + (a + b + c));
  }

  /** The events after unit n + 1's three reports. */
  lemma EventsStep(r0: seq<Event>, n: nat)
    ensures r0 + Events(n) + [UnitEvent(n + 1, "stage1")] + [UnitEvent(n + 1, "stage2")] +
            [UnitEvent(n + 1, "completed")] == r0 + Events(n + 1)
  {
    var a, b, c := UnitEvent(n + 1, "stage1"), UnitEvent(n + 1, "stage2"), UnitEvent(n + 1, "completed");
    assert Events(n + 1) == Events(n) + [a, b, c];
    assert r0 + Events(n) + [a] + [b] + [c] == r0 + (Events(n) + [a, b, c]);
  }

  /** What one more unit adds to the record of the units done so far: its state
      copies its spec, its stage-2 text is saved under its scope id, and its
      validation flag is the check of that text. */
  lemma UnitRecorded(kus: seq<KnowledgeUnitSpec>, units: seq<KnowledgeUnitState>, finals: seq<string>,
                     st: KnowledgeUnitState, states: map<(string, StageName), string>,
                     stage1: Option<string>, final: string, check: SectionCheck)
    requires |units| == |finals| < |kus|
    requires Processed(units, kus[..|units|]) && Copies(st, kus[|units|])
    requires StagesSaved(states, finals)
    requires ValidatedAgainst(units, finals, check)
    requires st.validated == check(final, ScopeId(|units| + 1)).0
    ensures Processed(units + [st], kus[..|units| + 1])
    ensures StagesSaved(SaveUnit(states, ScopeId(|units| + 1), stage1, final), finals + [final])
    ensures ValidatedAgainst(units + [st], finals + [final], check)
  {
    var n := |units|;
    ProcessedStep(units, kus[..n], st, kus[n]);
    assert kus[..n + 1] == kus[..n] + [kus[n]];
    StagesSavedStep(states, finals, stage1, final);
    assert (units + [st])[..n] == units && (finals + [final])[..n] == finals;
  }

  class ExecutorWithProgress {
    /** The executor this one extends. */
    const base: Executor
    const hasCallback: bool
    /** The calls the callback has received, in order. */
    var received: seq<Event>
    /** Every report and every piece of unit work, in order. */
    ghost var timeline: seq<Step>

    constructor (base: Executor, hasCallback: bool)
      ensures this.base == base && this.hasCallback == hasCallback
      ensures received == [] && timeline == []
    {
      this.base := base;
      this.hasCallback := hasCallback;
      received := [];
      timeline := [];
    }

    /** `_report_progress`: the callback, when there is one, receives exactly the
        three arguments; without one nothing is received. */
    method ReportProgress(phase: string, kuId: Option<string>, stage: Option<string>)
      modifies this
      ensures timeline == old(timeline) + [Reported(Event(phase, kuId, stage))]
      ensures received == old(received) + (if hasCallback then [Event(phase, kuId, stage)] else [])
    {
      if hasCallback {
        received := received + [Event(phase, kuId, stage)];
      }
      timeline := timeline + [Reported(Event(phase, kuId, stage))];
    }

    /** The stage-1 part of one turn of `run`'s loop: report, generate, save. */
    method Stage1Turn(ku: KnowledgeUnitSpec, idx: nat, llm: Llm) returns (stage1Html: string)
      modifies this, base
      ensures timeline == old(timeline) + Stage1Steps(idx)
      ensures received == old(received) + (if hasCallback then [UnitEvent(idx, "stage1")] else [])
      ensures base.states == old(base.states)[(ScopeId(idx), Stage1) := stage1Html]
      ensures base.htmlExists == old(base.htmlExists)
    {
      var scopeId := ScopeId(idx);
      ReportProgress(Executing, Some(scopeId), Some("stage1"));
      stage1Html := base.ProcessStage1(ku, scopeId, llm);
      timeline := timeline + [Stage1Work(scopeId)];
      base.SaveState(scopeId, Stage1, stage1Html);
    }

    /** The stage-2 part of one turn of `run`'s loop: report, generate, save. The
        stage-2 text is the file's content afterwards. */
    method Stage2Turn(ku: KnowledgeUnitSpec, idx: nat, llm: Llm) returns (finalHtml: string)
      modifies this, base
      ensures timeline == old(timeline) + Stage2Steps(idx)
      ensures received == old(received) + (if hasCallback then [UnitEvent(idx, "stage2")] else [])
      ensures base.states == old(base.states)[(ScopeId(idx), Stage2) := finalHtml]
      ensures finalHtml == base.html
      ensures base.htmlExists == old(base.htmlExists)
    {
      var scopeId := ScopeId(idx);
      ReportProgress(Executing, Some(scopeId), Some("stage2"));
      finalHtml := base.ProcessStage2(ku, scopeId, llm);
      timeline := timeline + [Stage2Work(scopeId)];
      base.SaveState(scopeId, Stage2, finalHtml);
    }

    /** The last part of one turn of `run`'s loop: validate, record, report. */
    method FinishTurn(ku: KnowledgeUnitSpec, idx: nat, finalHtml: string) returns (st: KnowledgeUnitState)
      modifies this
      ensures Copies(st, ku) && st.validated == base.sectionCheck(finalHtml, ScopeId(idx)).0
      ensures timeline == old(timeline) + FinishSteps(idx)
      ensures received == old(received) + (if hasCallback then [UnitEvent(idx, "completed")] else [])
    {
      var scopeId := ScopeId(idx);
      var (isValid, _) := base.sectionCheck(finalHtml, scopeId);
      timeline := timeline + [Validation(scopeId)];
      st := KnowledgeUnitState(ku.id, ku.unitContent, true, true, isValid);
      ReportProgress(Executing, Some(scopeId), Some("completed"));
    }

    /** One turn of `run`'s loop, for unit idx = n + 1 after n units are done. */
    method RunUnit(kus: seq<KnowledgeUnitSpec>, n: nat, llm: Llm,
                   ghost units: seq<KnowledgeUnitState>, ghost finals: seq<string>,
                   ghost timeline0: seq<Step>, ghost received0: seq<Event>)
      returns (st: KnowledgeUnitState, ghost final: string)
      requires n == |finals| && n < |kus|
      requires Processed(units, kus[..n]) && |units| == n
      requires StagesSaved(base.states, finals)
      requires ValidatedAgainst(units, finals, base.sectionCheck)
      requires timeline == timeline0 + Timeline(n)
      requires received == received0 + (if hasCallback then Events(n) else [])
      modifies this, base
      ensures Processed(units + [st], kus[..n + 1])
      ensures final == base.html
      ensures StagesSaved(base.states, finals + [final])
      ensures ValidatedAgainst(units + [st], finals + [final], base.sectionCheck)
      ensures timeline == timeline0 + Timeline(n + 1)
      ensures received == received0 + (if hasCallback then Events(n + 1) else [])
      ensures base.htmlExists == old(base.htmlExists)
    {
      ghost var statesBefore := base.states;
      var ku := kus[n];
      var stage1Html := Stage1Turn(ku, n + 1, llm);
      var finalHtml := Stage2Turn(ku, n + 1, llm);
      st := FinishTurn(ku, n + 1, finalHtml);
      final := finalHtml;
      TimelineStep(timeline0, n);
      if hasCallback {
        EventsStep(received0, n);
      }
      assert base.states == SaveUnit(statesBefore, ScopeId(n + 1), Some(stage1Html), finalHtml);
      UnitRecorded(kus, units, finals, st, statesBefore, Some(stage1Html), finalHtml, base.sectionCheck);
    }

    /** `run`: the start event, the skeleton unless resuming onto an existing file,
        then every unit in spec order under scope ids ku1..kuN. Unlike the base
        executor's `run`, saved states are never consulted: both stages always run
        and every unit is validated. */
    method Run(spec: DocumentSpec, skeleton: string, llm: Llm)
      returns (doc: GeneratedDocument, ghost finals: seq<string>)
      modifies this, base
      ensures doc.topic == spec.topic && doc.htmlFilePath == base.HtmlPath()
      ensures |finals| == |spec.knowledgeUnits| && Processed(doc.knowledgeUnits, spec.knowledgeUnits)
      ensures StagesSaved(base.states, finals)
      ensures ValidatedAgainst(doc.knowledgeUnits, finals, base.sectionCheck)
      ensures timeline == old(timeline) + Timeline(|spec.knowledgeUnits|)
      ensures received == old(received) + (if hasCallback then Events(|spec.knowledgeUnits|) else [])
      ensures base.htmlExists
    {
      ReportProgress(Executing, None, None);
      if !base.resume || !base.htmlExists {
        base.html := skeleton;
        base.htmlExists := true;
      }
      var knowledgeUnits: seq<KnowledgeUnitState> := [];
      finals := [];
      var done := 0;
      while done < |spec.knowledgeUnits|
        invariant done <= |spec.knowledgeUnits|
        invariant |finals| == done
        invariant Processed(knowledgeUnits, spec.knowledgeUnits[..done]) && |knowledgeUnits| == done
        invariant StagesSaved(base.states, finals)
        invariant ValidatedAgainst(knowledgeUnits, finals, base.sectionCheck)
        invariant timeline == old(timeline) + Timeline(done)
        invariant received == old(received) + (if hasCallback then Events(done) else [])
        invariant base.htmlExists
      {
        var kuState, final := RunUnit(spec.knowledgeUnits, done, llm, knowledgeUnits, finals,
                                      old(timeline), old(received));
        knowledgeUnits := knowledgeUnits + [kuState];
        finals := finals + [final];
        done := done + 1;
      }
      assert spec.knowledgeUnits[..done] == spec.knowledgeUnits;
      doc := GeneratedDocument(spec.topic, base.HtmlPath(), knowledgeUnits);
    }
  }
}
