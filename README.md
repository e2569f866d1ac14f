# vividoc core, modelled in Dafny

vividoc turns a topic into an interactive HTML document in three phases. A
planner writes a document specification: a topic and a list of knowledge units.
The executor then asks an LLM, unit by unit, for a text section (stage 1) and for
its interactive version (stage 2). Each reply is cleaned of Markdown fences. It is
retried until it is a whole HTML page, and the unit's `<section>` is checked by a
small HTML structure validator. Finally an evaluator lists the units that did not
complete or did not validate.

A web backend wraps this pipeline:
- a spec service stores and edits specifications: update, delete, add and reorder units;
- a job manager keeps one progress record per background job;
- a document service runs the executor with a progress callback. The callback keeps a
  per-unit status list (`pending`, `stage1`, `stage2`, `completed`) and an overall
  percentage in the job.

Around these sit:
- the API models, which convert between internal and frontend records;
- the run configuration, which checks the model name;
- the Markdown code-block extractor;
- the LLM caller registry;
- the dataset-splitting script.

The model has one module per source file:

| module | source |
|---|---|
| `Common` | the Python string operations the code relies on: `strip`, `split`, `find`, `lower`, `str(int)` |
| `Models` | `vividoc/models.py` records |
| `HtmlValidator` | `vividoc/utils/html/validator.py`: the `StructureParser` class, plus a pure step function it is proved against |
| `JobManager` | `backend/services/job_manager.py`: a `JobTable` class over a map of jobs |
| `Executor` | `vividoc/executor.py`: an `Executor` class. It holds the HTML file, the saved stage states and the log of LLM calls. |
| `ExecutorWithProgress` | `vividoc/entrypoint/services/executor_with_progress.py` |
| `DocumentService` | `vividoc/entrypoint/services/document_service.py`: the progress list is an `array` updated in place |
| `Evaluator` | `vividoc/core/evaluator.py` |
| `SpecService` | `vividoc/entrypoint/services/spec_service.py`: pure edit functions plus a class over the spec maps |
| `ApiModels` | `backend/models/api_models.py` |
| `MarkdownIo` | `vividoc/utils/io.py` |
| `Config` | `vividoc/core/config.py` |
| `SplitDataset` | `vividoc/prep/split_dataset.py` |
| `CallerRegistry` | `vividoc/utils/llm/caller_registry.py` |

Several outside calls become function-valued parameters, each supplying its result:
- the LLM;
- the HTML tokenizer;
- `json.loads`;
- the planner;
- the evaluator the service calls;
- the executor run seen by the service.

## Model

| member | source | states |
|---|---|---|
| Common.Strip | vividoc/prep/split_dataset.py:17-18 | `str.strip()`: the result is a slice s[i..j] where everything before i and from j on is whitespace, and it has no whitespace at either end. It is empty exactly when the input is all whitespace. |
| Common.StripKeepsOut | vividoc/executor.py:83-87 | stripping text cannot create an occurrence of a substring it lacked |
| Common.Words | vividoc/utils/html/validator.py:42 | `str.split()`: every word is non-empty and contains no whitespace; an all-whitespace string has no words (WordsAreRuns states that the words are exactly the maximal runs) |
| Common.WordLength | vividoc/utils/html/validator.py:42 | the length of the leading word is bounded by the first whitespace character |
| Common.Find | vividoc/utils/io.py:9-10 | the leftmost occurrence at or after `from`, or a proof that none exists |
| Common.ContainsIff | vividoc/executor.py:83 | the `in` operator on strings holds exactly when some index is an occurrence |
| Common.ContainsSlice | vividoc/executor.py:83-87 | an occurrence inside a slice is an occurrence in the whole |
| Common.Before | vividoc/executor.py:84-87 | `split(sep)[0]`: a prefix of the input that does not contain the separator; it is the whole input when the separator is absent |
| Common.FindShift | vividoc/executor.py:84-87 | searching a suffix finds the same occurrence, shifted, as searching the whole string from that offset |
| Common.BeforeSuffix | vividoc/executor.py:84-87 | the first piece of a suffix ends at the next occurrence of the separator, or at the end |
| Common.AfterFirst | vividoc/executor.py:84-87 | `split(sep)[1]`: a piece that contains no separator |
| Common.AfterFirstSpan | vividoc/executor.py:84-87 | `split(sep)[1]` is exactly the text between the first and the second separator, or from the first separator to the end |
| Common.NatToString | vividoc/executor.py:265 | `str(n)` is non-empty and has one digit exactly when n < 10 |
| Common.NatToStringInjective | vividoc/executor.py:265 | distinct numbers have distinct decimal texts |
| Common.IntToString | vividoc/entrypoint/services/spec_service.py:183 | `str(i)` is non-empty and agrees with the natural-number text when i >= 0 |
| Common.Lower | vividoc/prep/split_dataset.py:17-18 | `str.lower()` restricted to ASCII: keeps the length and folds `A`-`Z` to `a`-`z` character by character |
| Common.SkipSpace | vividoc/executor.py:89-93 | the first non-whitespace position at or after `from` |
| Common.TrimEnd | vividoc/utils/io.py:13 | the position after the last non-whitespace character |
| Common.IsSpace | vividoc/utils/io.py:13 | the characters `str.isspace()` and `str.strip()` treat as whitespace |
| Common.OccursAt | vividoc/executor.py:84 | p occurs in s starting at index i |
| Common.Contains | vividoc/executor.py:84 | the `in` test on strings; ContainsIff states it holds exactly when some index is an occurrence |
| Common.StartsWith | vividoc/executor.py:91 | `str.startswith`: the text begins with the prefix |
| Common.BeforeAfterFirst | vividoc/executor.py:85 | `s.split(open)[1].split(sep)[0]` is the text after the first `open` up to the first `sep` lying before the next `open` (or up to that `open`, or the end) |
| Common.NextOrEnd | vividoc/executor.py:85 | where `s.split(open)[1]` ends: the next `open` at or after a position, or the end |
| Common.AfterFirstUpTo | vividoc/executor.py:85 | `s.split(open)[1]` is the text from just after the first `open` to NextOrEnd |
| Common.BeforeSlice | vividoc/executor.py:85 | the first piece of a slice ends at the first separator inside the slice, or at the slice's end |
| Common.RunAt | vividoc/utils/html/validator.py:42 | w occurs at p with whitespace or an end of the text on both sides |
| Common.WordStarts | vividoc/utils/html/validator.py:42 | the positions where the words of `split()` begin; WordsAreRuns states their properties |
| Common.Shift | vividoc/utils/html/validator.py:42 | every position moved by the same offset, in the same order |
| Common.Runs | vividoc/utils/html/validator.py:42 | each word is a maximal run at its position |
| Common.Increasing | vividoc/utils/html/validator.py:42 | positions strictly increase, so the words come in text order |
| Common.Covers | vividoc/utils/html/validator.py:42 | every non-whitespace character from a position on lies in one of the runs |
| Common.WordsAreRuns | vividoc/utils/html/validator.py:42 | `split()` gives exactly the maximal whitespace-free runs, in order of position, and every non-whitespace character lies in one of them |
| Common.RunShiftOne | vividoc/utils/html/validator.py:42 | a run of a suffix that follows whitespace is a run of the whole text |
| Common.RunsShift | vividoc/utils/html/validator.py:42 | the runs of a suffix, shifted, are runs of the whole text, still in order |
| Common.CoversShift | vividoc/utils/html/validator.py:42 | covering a suffix covers the whole text from the suffix on |
| Common.RunsCons | vividoc/utils/html/validator.py:42 | a leading word followed by the later runs gives runs of the whole text, in order |
| Common.CoversCons | vividoc/utils/html/validator.py:42 | a leading word followed by runs covering the rest covers the whole text |
| Common.Join | vividoc/core/config.py:39 | `sep.join(parts)`; JoinContainsPart states that every part occurs in the result |
| Common.DigitChar | vividoc/executor.py:265 | the decimal digit of a number below 10 |
| Common.LowerChar | vividoc/prep/split_dataset.py:17-18 | an ASCII upper-case letter becomes lower case; every other character is kept |
| Models.InitialState | vividoc/models.py:29-44 | a fresh unit state copies the spec's id and content, and every flag is false |
| Models.ScopeIdInjective | vividoc/executor.py:264-265 | `ku{idx}` scope ids of different units differ |
| Models.ProcessedStep | vividoc/executor.py:264-287 | appending a unit's state that copies its spec keeps the document's units in step with the spec list |
| Models.ProcessedAt | vividoc/executor.py:264-287 | when the units are in step, unit i copies spec i and both lists have the same length |
| Models.ScopeId | vividoc/executor.py:265 | `f"ku{idx}"`; ScopeIdInjective states that different units get different ids |
| Models.Copies | vividoc/executor.py:185-230 | a unit state with the spec unit's id and content and both stages completed |
| Models.Processed | vividoc/executor.py:264-287 | every unit state copies the spec unit at the same position; ProcessedAt states it position by position |
| HtmlValidator.StructureParser.constructor | vividoc/utils/html/validator.py:27-33 | a new parser has no root, an empty stack and no unclosed tags |
| HtmlValidator.StructureParser.HandleStartTag | vividoc/utils/html/validator.py:35-45 | the first named tag fixes the root tag, its id and its class words; later tags leave the root alone; a non-void tag is pushed |
| HtmlValidator.StructureParser.HandleEndTag | vividoc/utils/html/validator.py:47-52 | a tag matching the stack top pops it; any other non-void end tag is recorded as unclosed; a void one is ignored; the root is untouched |
| HtmlValidator.StructureParser.Feed | vividoc/utils/html/validator.py:35-52 | feeding tokens one by one reaches exactly the state the pure step function gives |
| HtmlValidator.StructureParser.Close | vividoc/utils/html/validator.py:54-58 | tags still open at the end are appended to the unclosed tags |
| HtmlValidator.Checklist | vividoc/utils/html/validator.py:85-103 | the checks in order, each failure with its own message; the verdict is true exactly when the message is empty and every structural requirement holds |
| HtmlValidator.Verdict | vividoc/utils/html/validator.py:64-106 | a tokenizer failure gives the `HTML parsing error` message; otherwise acceptance is the checklist on the closed parser state |
| HtmlValidator.Validate | vividoc/utils/html/validator.py:64-106 | the method that drives the parser returns the verdict, and succeeds exactly when the message is empty |
| HtmlValidator.FeedAllAppend | vividoc/utils/html/validator.py:35-52 | feeding two token runs equals feeding their concatenation |
| HtmlValidator.NoVoidOnStack | vividoc/utils/html/validator.py:44-45 | a void tag such as `br` or `img` is never on the tag stack |
| HtmlValidator.FirstNamedStart | vividoc/utils/html/validator.py:37 | the first start tag with a non-empty name, or a proof that none exists |
| HtmlValidator.FirstNamedStartIs | vividoc/utils/html/validator.py:37 | characterises the first named start tag by position |
| HtmlValidator.RootFromFirstStart | vividoc/utils/html/validator.py:37-42 | the root tag, id and classes come from the first named start tag, or are unset when there is none |
| HtmlValidator.NestedIsNeutral | vividoc/utils/html/validator.py:44-52 | a well-nested element leaves the stack and the unclosed tags as they were |
| HtmlValidator.NestedAllIsNeutral | vividoc/utils/html/validator.py:44-52 | the same holds for a run of well-nested siblings |
| HtmlValidator.WordsOfWord | vividoc/utils/html/validator.py:42 | a class value without whitespace splits into itself |
| HtmlValidator.WordLengthOfWord | vividoc/utils/html/validator.py:42 | a string without whitespace is one word |
| HtmlValidator.SectionAttrs | vividoc/utils/html/validator.py:39-42 | `class="knowledge-unit" id=...` gives that id and that class word |
| HtmlValidator.WellFormedSectionAccepted | vividoc/utils/html/validator.py:64-103 | a well-nested `<section class="knowledge-unit" id=...>` with a non-empty id is accepted with an empty message |
| HtmlValidator.Lookup | vividoc/utils/html/validator.py:39-41 | `dict(attrs).get(name)`: the value of the last attribute with that name |
| HtmlValidator.AttrText | vividoc/utils/html/validator.py:40-42 | `get(name, "")`, with a missing or bare attribute read as `""` |
| HtmlValidator.StartStep | vividoc/utils/html/validator.py:35-45 | `handle_starttag` on the parser's state; HandleStartTag is proved against it |
| HtmlValidator.EndStep | vividoc/utils/html/validator.py:47-52 | `handle_endtag` on the parser's state; HandleEndTag is proved against it |
| HtmlValidator.Step | vividoc/utils/html/validator.py:35-52 | one token handled by the matching handler |
| HtmlValidator.FeedAll | vividoc/utils/html/validator.py:35-52 | tokens handled in order; FeedAllAppend and NestedIsNeutral state its laws |
| HtmlValidator.CloseState | vividoc/utils/html/validator.py:54-58 | `close`: tags still open join the unclosed ones |
| HtmlValidator.Accepted | vividoc/utils/html/validator.py:85-103 | the structural requirements: a `section` root with class `knowledge-unit`, a non-empty id and no unclosed tag; Checklist states it is the verdict |
| HtmlValidator.StructureParser.State | vividoc/utils/html/validator.py:27-33 | the parser's five fields as one value |
| HtmlValidator.IsNamedStart | vividoc/utils/html/validator.py:37 | a start tag with a non-empty name, the only kind that sets the root |
| HtmlValidator.WellFormed | vividoc/utils/html/validator.py:44-52 | an element tree whose elements are non-void and whose leaves are void tags |
| HtmlValidator.Serialize | vividoc/utils/html/validator.py:35-52 | the tokens of an element: its start tag, its children, its end tag |
| HtmlValidator.SerializeAll | vividoc/utils/html/validator.py:35-52 | the tokens of sibling elements, one after the other |
| JobManager.NewJob | backend/services/job_manager.py:51-77 | a new job is running with no result or error, and is at 0 percent with no unit progress; its phase is `planning` for spec generation and `executing` otherwise |
| JobManager.Merge | backend/services/job_manager.py:94-126 | each key present in the update replaces that field; every absent key keeps the old value |
| JobManager.MergeLaws | backend/services/job_manager.py:94-126 | an empty update changes nothing; applying an update twice is the same as once; two updates compose into one |
| JobManager.Pick | backend/services/job_manager.py:109-126 | a present key's value, otherwise the current field |
| JobManager.Then | backend/services/job_manager.py:94-126 | two updates in a row as one, the later keys winning; MergeLaws states that merging them in turn equals merging this one |
| JobManager.CompleteJob | backend/services/job_manager.py:141-154 | completed, with the result stored and the percent set to 100; nothing else changes |
| JobManager.FailJob | backend/services/job_manager.py:156-168 | failed, with the error stored; progress and result are kept |
| JobManager.FinishLaws | backend/services/job_manager.py:141-168 | completing or failing twice is idempotent, and the later of the two decides the status |
| JobManager.JobTable.constructor | backend/services/job_manager.py:46-49 | the table starts empty |
| JobManager.JobTable.CreateJob | backend/services/job_manager.py:51-77 | stores a new job under a fresh id and returns that id; no other job changes |
| JobManager.JobTable.UpdateProgress | backend/services/job_manager.py:94-126 | merges the update into a known job's progress and nothing else; does nothing for an unknown id |
| JobManager.JobTable.GetStatus | backend/services/job_manager.py:128-139 | the stored job, or nothing exactly when the id is unknown |
| JobManager.JobTable.MarkCompleted | backend/services/job_manager.py:141-154 | completes a known job; does nothing for an unknown id |
| JobManager.JobTable.MarkFailed | backend/services/job_manager.py:156-168 | fails a known job; does nothing for an unknown id |
| JobManager.CreateJobs | backend/services/job_manager.py:51-77 | creating jobs under distinct fresh ids makes each retrievable as a new job; earlier jobs are untouched |
| Executor.CleanFences | vividoc/executor.py:83-87 | the cleaned reply has no code fence left, and a reply without fences is returned unchanged (CleanFencesHtml and CleanFencesPlain state which text each branch keeps) |
| Executor.FencePiece | vividoc/executor.py:85 | `reply.split(open)[1].split("```")[0].strip()`: the result holds no fence |
| Executor.PieceAfter | vividoc/executor.py:85 | the text after the first `open`, up to the first fence before the next `open` (or up to that `open`, or the end), stripped |
| Executor.FencePieceSpan | vividoc/executor.py:85 | the split-and-strip piece is exactly the text PieceAfter describes, for any opening marker |
| Executor.HtmlFenceIsFence | vividoc/executor.py:83-87 | a "```html" fence is also a plain fence, so the branches are ordered correctly |
| Executor.CleanFencesPlain | vividoc/executor.py:86-87 | with only plain fences, the reply is the stripped text between the first two fences |
| Executor.CleanFencesHtml | vividoc/executor.py:84-85 | with an ```` ```html ```` fence, the reply is cut to the stripped text after the first one, up to the first ```` ``` ```` that lies before the next ```` ```html ```` (or up to that marker, or the end) |
| Executor.CleanFencesSingleHtml | vividoc/executor.py:84-85 | with a single ```` ```html ```` fence, the reply is the stripped text from after it to the next ```` ``` ```` fence, or to the end |
| Executor.Accepts | vividoc/executor.py:89-93 | the acceptance test on a cleaned reply; AcceptsStripped states it is the `strip().startswith` test |
| Executor.Bound | vividoc/executor.py:66 | the number of iterations of `range(1, max_fix_attempts + 1)`, 0 for a negative bound |
| Executor.StagePrompt | vividoc/executor.py:72-76 | the stage-1 or stage-2 request (`get_stage1_prompt`, and `get_stage2_prompt` at lines 124-128) built from the current HTML |
| Executor.LoadState | vividoc/executor.py:50-56 | the saved state for (scope, stage), or `""` when there is none |
| Executor.StagesSaved | vividoc/executor.py:224-229 | unit i's stage-2 state holds its final HTML; StagesSavedAt states it position by position |
| Executor.Resumed | vividoc/executor.py:188-191 | resuming finds a non-empty saved stage 2 |
| Executor.SectionChecker | vividoc/executor.py:165-177 | the section check, ValidateSection on the HTML validator |
| Executor.ValidatedAgainst | vividoc/executor.py:232-234 | each unit's validated flag is the section check of its final HTML under `ku<i>`; ValidatedAt states it position by position |
| Executor.Executor.HtmlPath | vividoc/executor.py:249 | the document file `document.html` in the output directory |
| Executor.AcceptsStripped | vividoc/executor.py:89-93 | acceptance means the stripped reply starts with `<!DOCTYPE html` and the reply contains `</html>` |
| Executor.Candidates | vividoc/executor.py:66-87 | there is one cleaned candidate per attempt |
| Executor.CandidateAt | vividoc/executor.py:66-87 | attempt k+1 yields the cleaned LLM reply to the stage prompt for attempt k+1 |
| Executor.FirstAccepted | vividoc/executor.py:89-93 | the first accepted candidate, and every earlier one rejected; or all rejected |
| Executor.Requests | vividoc/executor.py:66-79 | one LLM request per attempt |
| Executor.RequestAt | vividoc/executor.py:66-79 | request k asks the stage prompt with attempt number k+1 |
| Executor.RequestsStep | vividoc/executor.py:66-79 | one more attempt appends one more request |
| Executor.SectionAt | vividoc/executor.py:165-177 | a match at i starts with `<section`, carries `id="<scope>"` and ends with `</section>` |
| Executor.SpanFacts | vividoc/executor.py:165-177 | the prefix, contained text and suffix of a span are those of the matched slice |
| Executor.FindSection | vividoc/executor.py:165-177 | the leftmost matching section, or a proof that no position from `from` matches |
| Executor.ValidateSection | vividoc/executor.py:165-177 | no section gives a failure; otherwise the verdict is the HTML validator's on that section, and success has an empty message |
| Executor.Finished | vividoc/executor.py:225-237 | a finished unit copies the spec, has both stages completed and records the validation flag |
| Executor.SaveUnit | vividoc/executor.py:42-48 | saving a unit's stages stores the stage-2 HTML under its scope; other scopes are kept |
| Executor.StagesSavedKept | vividoc/executor.py:42-48 | saving another scope keeps every earlier unit's saved stage 2 |
| Executor.StagesSavedStep | vividoc/executor.py:264-287 | saving unit n+1 extends the saved record by its final HTML |
| Executor.StagesSavedAt | vividoc/executor.py:264-287 | unit i's stage-2 state holds its final HTML |
| Executor.ValidatedAt | vividoc/executor.py:225-237 | unit i's validated flag is the section check of its final HTML under its scope id |
| Executor.ValidatedSectionAccepted | vividoc/executor.py:165-177 | a validated unit's final HTML holds an accepted `<section>` for its scope |
| Executor.Executor.constructor | vividoc/executor.py:12-30 | keeps the configuration, the HTML file and the saved states, builds the section check on the HTML validator, and starts with no LLM calls |
| Executor.Executor.SaveState | vividoc/executor.py:42-48 | stores the content under (scope, stage) and changes nothing else |
| Executor.Executor.Attempts | vividoc/executor.py:58-163 | the retry loop: one request per attempt up to the bound; it stops at the first accepted candidate and writes it to the file; without one the file is kept |
| Executor.Executor.ProcessStage1 | vividoc/executor.py:58-108 | stage 1 with the text prompt: at most `max_fix_attempts` LLM calls; writes the first accepted page or keeps the file |
| Executor.Executor.ProcessStage2 | vividoc/executor.py:110-163 | stage 2 with the interaction prompt, with the same bound and acceptance |
| Executor.Executor.ProcessKnowledgeUnit | vividoc/executor.py:179-238 | resuming with a saved stage 2 restores it, calls no LLM and marks the unit validated; otherwise the stages run (stage 1 only when no stage-1 text is saved), stage 2 is saved, and the unit is validated against its final HTML; the unit always copies its spec with both stages completed |
| Executor.Executor.RunUnit | vividoc/executor.py:264-287 | one turn of the run loop keeps units in step, saved and validated |
| Executor.Executor.Run | vividoc/executor.py:240-291 | the document has the spec's topic and one state per unit in order; each unit's stage 2 is saved; without resume, each unit is validated against its final HTML |
| ExecutorWithProgress.Events | vividoc/entrypoint/services/executor_with_progress.py:70-128 | an executing start report, then three reports per unit |
| ExecutorWithProgress.UnitSteps | vividoc/entrypoint/services/executor_with_progress.py:96-128 | a unit's turn: report stage1, work, report stage2, work, validate, report completed |
| ExecutorWithProgress.Timeline | vividoc/entrypoint/services/executor_with_progress.py:70-128 | the whole run's interleaving of reports and work |
| ExecutorWithProgress.ReportsAppend | vividoc/entrypoint/services/executor_with_progress.py:38-50 | reports of concatenated timelines concatenate |
| ExecutorWithProgress.ReportsSnoc | vividoc/entrypoint/services/executor_with_progress.py:38-50 | one more step adds its report, if it is one |
| ExecutorWithProgress.ReportsUnit | vividoc/entrypoint/services/executor_with_progress.py:96-128 | a unit's turn reports stage1, stage2 and completed under its scope id |
| ExecutorWithProgress.TimelineReports | vividoc/entrypoint/services/executor_with_progress.py:70-128 | the reports in the run's timeline are exactly the event list |
| ExecutorWithProgress.TimelineAt | vividoc/entrypoint/services/executor_with_progress.py:92-128 | unit i's turn occupies its own slice of the timeline |
| ExecutorWithProgress.EventsAt | vividoc/entrypoint/services/executor_with_progress.py:92-128 | unit i's reports occupy their own slice of the events |
| ExecutorWithProgress.TimelineStep | vividoc/entrypoint/services/executor_with_progress.py:92-128 | the timeline of n+1 units extends that of n by one turn |
| ExecutorWithProgress.EventsStep | vividoc/entrypoint/services/executor_with_progress.py:92-128 | the events of n+1 units extend those of n by one unit's three |
| ExecutorWithProgress.StartEvent | vividoc/entrypoint/services/executor_with_progress.py:71 | the `executing` report with no unit and no stage |
| ExecutorWithProgress.UnitEvent | vividoc/entrypoint/services/executor_with_progress.py:97 | an `executing` report naming the unit's scope id and a stage |
| ExecutorWithProgress.UnitEvents | vividoc/entrypoint/services/executor_with_progress.py:96-128 | a unit's `stage1`, `stage2` and `completed` reports, in order |
| ExecutorWithProgress.Stage1Steps | vividoc/entrypoint/services/executor_with_progress.py:96-101 | the `stage1` report, then stage-1 work |
| ExecutorWithProgress.Stage2Steps | vividoc/entrypoint/services/executor_with_progress.py:103-108 | the `stage2` report, then stage-2 work |
| ExecutorWithProgress.FinishSteps | vividoc/entrypoint/services/executor_with_progress.py:110-128 | validation, then the `completed` report |
| ExecutorWithProgress.Reports | vividoc/entrypoint/services/executor_with_progress.py:38-50 | the reports among the steps, in order; ReportsAppend and TimelineReports state its laws |
| ExecutorWithProgress.UnitRecorded | vividoc/entrypoint/services/executor_with_progress.py:100-125 | one unit's results extend the in-step, saved and validated records |
| ExecutorWithProgress.ExecutorWithProgress.constructor | vividoc/entrypoint/services/executor_with_progress.py:17-36 | wraps the base executor and remembers whether a callback was given |
| ExecutorWithProgress.ExecutorWithProgress.ReportProgress | vividoc/entrypoint/services/executor_with_progress.py:38-50 | the callback receives the report only when one was given |
| ExecutorWithProgress.ExecutorWithProgress.Stage1Turn | vividoc/entrypoint/services/executor_with_progress.py:96-101 | reports stage1, runs stage 1 and saves its HTML |
| ExecutorWithProgress.ExecutorWithProgress.Stage2Turn | vividoc/entrypoint/services/executor_with_progress.py:103-108 | reports stage2, runs stage 2 and saves the final HTML |
| ExecutorWithProgress.ExecutorWithProgress.FinishTurn | vividoc/entrypoint/services/executor_with_progress.py:110-128 | validates the section, builds the unit's state and reports completed |
| ExecutorWithProgress.ExecutorWithProgress.RunUnit | vividoc/entrypoint/services/executor_with_progress.py:92-128 | one loop turn extends the timeline and the delivered reports by one unit |
| ExecutorWithProgress.ExecutorWithProgress.Run | vividoc/entrypoint/services/executor_with_progress.py:52-145 | the document has the spec's topic and one state per unit in order, each stage 2 saved and each unit validated against its final HTML (there is no resume path here); the callback receives exactly `Events(n)` in order |
| DocumentService.InitialProgress | vividoc/entrypoint/services/document_service.py:72-77 | one `pending` entry per unit, keyed `ku1`, `ku2`, … and titled with the unit's id |
| DocumentService.InitialProgressStep | vividoc/entrypoint/services/document_service.py:72-77 | the list for one more unit appends its entry |
| DocumentService.BuildProgressList | vividoc/entrypoint/services/document_service.py:72-77 | the loop builds a fresh array holding the initial progress |
| DocumentService.FirstWith | vividoc/entrypoint/services/document_service.py:184-188 | the first entry with the given id, or a proof that there is none |
| DocumentService.SetFirst | vividoc/entrypoint/services/document_service.py:184-188 | only statuses change; ids and titles are kept |
| DocumentService.SetFirstAt | vividoc/entrypoint/services/document_service.py:184-188 | exactly the first matching entry gets the new status |
| DocumentService.SetStatus | vividoc/entrypoint/services/document_service.py:184-188 | the in-place loop over the array sets the status of the first match and stops |
| DocumentService.ApplyEvents | vividoc/entrypoint/services/document_service.py:162-188 | replaying reports keeps the length, ids and titles of the list |
| DocumentService.ApplyEventsSnoc | vividoc/entrypoint/services/document_service.py:162-188 | one more report applies after the earlier ones |
| DocumentService.ReportSets | vividoc/entrypoint/services/document_service.py:184-188 | a report with a unit and a stage sets that unit's status |
| DocumentService.ThreeReports | vividoc/entrypoint/services/document_service.py:184-188 | three reports on one unit leave the last stage |
| DocumentService.UnitReports | vividoc/entrypoint/services/document_service.py:184-188 | a unit's three reports leave it `completed` |
| DocumentService.FirstWithIs | vividoc/entrypoint/services/document_service.py:185-187 | characterises the first matching entry by position |
| DocumentService.ScopeIdsDistinct | vividoc/entrypoint/services/document_service.py:72-77 | the entry for `ku<k>` is the only one with that id among the entries before it |
| DocumentService.EventsCompletePrefix | vividoc/entrypoint/services/document_service.py:162-188 | after the reports of the first k units, those are completed and the rest unchanged |
| DocumentService.EventsCompleteAll | vividoc/entrypoint/services/document_service.py:162-206 | after a whole executor run's reports, every unit is completed and the percent is 100 |
| DocumentService.Count | vividoc/entrypoint/services/document_service.py:193-197 | a status count is at most the list length |
| DocumentService.CountStatus | vividoc/entrypoint/services/document_service.py:193-197 | the counting loop over the array gives the count |
| DocumentService.CountsDisjoint | vividoc/entrypoint/services/document_service.py:193-197 | the completed, stage2 and stage1 counts together are at most the list length |
| DocumentService.CountFull | vividoc/entrypoint/services/document_service.py:193-197 | a count equals the length exactly when every entry has that status |
| DocumentService.RatioBounds | vividoc/entrypoint/services/document_service.py:200-204 | a share of a whole times 100 is within 0..100, and is 100 exactly when the share is the whole |
| DocumentService.PercentBounds | vividoc/entrypoint/services/document_service.py:190-206 | the overall percent is always within 0..100 |
| DocumentService.PercentFullIff | vividoc/entrypoint/services/document_service.py:190-206 | for a non-empty list, the percent is 100 exactly when every unit is completed |
| DocumentService.ReportedSnoc | vividoc/entrypoint/services/document_service.py:208-218 | each report merges its update into the job after the earlier ones |
| DocumentService.ReportedShowsLast | vividoc/entrypoint/services/document_service.py:162-218 | after reports, the job shows the last report's phase, unit and stage with the list and percent it led to |
| DocumentService.EvaluationDataOf | vividoc/entrypoint/services/document_service.py:127-142 | the score and feedback when evaluation succeeded, or the error text when it raised |
| DocumentService.Truthy | vividoc/entrypoint/services/document_service.py:184 | Python truthiness of an optional string: present and non-empty |
| DocumentService.ApplyReport | vividoc/entrypoint/services/document_service.py:184-188 | a report changes the list only when it names both a unit and a stage; ReportSets states that unit then gets the stage |
| DocumentService.ProgressSum | vividoc/entrypoint/services/document_service.py:201-203 | completed units count 1, stage-2 units 0.75 and stage-1 units 0.25 |
| DocumentService.Percent | vividoc/entrypoint/services/document_service.py:190-206 | the overall percent, 0 for an empty list; PercentBounds and PercentFullIff state its range and when it is 100 |
| DocumentService.StartUpdate | vividoc/entrypoint/services/document_service.py:79-87 | `executing` at 0 percent with the fresh list |
| DocumentService.ReportUpdate | vividoc/entrypoint/services/document_service.py:208-218 | the report's phase, unit and stage with the list and its percent |
| DocumentService.EvaluatingUpdate | vividoc/entrypoint/services/document_service.py:115-125 | `evaluating` at 95 percent, with no unit or stage and the list |
| DocumentService.Reported | vividoc/entrypoint/services/document_service.py:162-218 | the job's progress after a run of reports; ReportedShowsLast states what it shows |
| DocumentService.FinishedJob | vividoc/entrypoint/services/document_service.py:61-160 | the start update, the reports, then the conclusion; FinishedJobState states the outcome |
| DocumentService.Concluded | vividoc/entrypoint/services/document_service.py:115-160 | completed with the document id after the evaluating update, or failed with the message |
| DocumentService.FinishedJobState | vividoc/entrypoint/services/document_service.py:61-160 | success gives a completed job at 100 percent with the document id; failure gives a failed job with the message and the progress the reports left |
| DocumentService.FinishedJobSteps | vividoc/entrypoint/services/document_service.py:61-160 | the job goes through the start update, then the reports, then the conclusion |
| DocumentService.UpdateTwice | backend/services/job_manager.py:94-126 | a later store under the same job id replaces the earlier |
| DocumentService.CompletedRunJob | vividoc/entrypoint/services/document_service.py:61-160 | a completed run leaves the job completed at 100 percent with every unit completed |
| DocumentService.FailedBeforeReportsJob | vividoc/entrypoint/services/document_service.py:158-160 | an executor that raises before reporting leaves the job failed at 0 percent with every unit pending |
| DocumentService.DocumentService.constructor | vividoc/entrypoint/services/document_service.py:16-35 | starts with no documents or job mappings |
| DocumentService.DocumentService.GenerateDocument | vividoc/entrypoint/services/document_service.py:37-59 | creates a `document_generation` job under a fresh id and maps it to the spec |
| DocumentService.DocumentService.ProgressCallback | vividoc/entrypoint/services/document_service.py:162-218 | updates the list in place and merges phase, unit, stage, percent and list into the job |
| DocumentService.DocumentService.ReportAll | vividoc/entrypoint/services/document_service.py:90-93 | applying the executor's reports in order gives the replayed list and job |
| DocumentService.DocumentService.ExecuteGeneration | vividoc/entrypoint/services/document_service.py:61-160 | the job ends as `FinishedJob` says; on success the document and its spec link are stored; on failure nothing is stored |
| DocumentService.DocumentService.Conclude | vividoc/entrypoint/services/document_service.py:115-160 | the evaluating update, evaluation, stored document and completion on success; failure of the job otherwise |
| DocumentService.DocumentService.GetDocument | vividoc/entrypoint/services/document_service.py:220-236 | the stored metadata, or `Document not found` exactly when the id is unknown |
| DocumentService.DocumentService.GetSpecIdForJob | vividoc/entrypoint/services/document_service.py:262-272 | the spec id of a known job, or nothing exactly when the job is unknown |
| Evaluator.CheckCoherence | vividoc/core/evaluator.py:17-30 | a missing file, under 1000 characters and the rest each give their own note, in both directions |
| Evaluator.CheckComponents | vividoc/core/evaluator.py:32-47 | the loop collects every unit's issues in order |
| Evaluator.AppendUnitIssues | vividoc/core/evaluator.py:37-45 | one unit's turn appends exactly its issues |
| Evaluator.AppendThree | vividoc/core/evaluator.py:37-45 | regrouping one unit's three appends |
| Evaluator.IssuesStep | vividoc/core/evaluator.py:36-45 | one more unit adds its issues at the end |
| Evaluator.CollectStep | vividoc/core/evaluator.py:36-45 | the same for any per-item list |
| Evaluator.Run | vividoc/core/evaluator.py:49-58 | revision is required exactly when some unit has an incomplete stage or failed validation |
| Evaluator.CollectAppend | vividoc/core/evaluator.py:36-45 | collecting over a concatenation concatenates |
| Evaluator.IssuesAppend | vividoc/core/evaluator.py:36-45 | the issues of two unit lists concatenate |
| Evaluator.CollectBound | vividoc/core/evaluator.py:36-45 | per-item bounds give a total bound |
| Evaluator.IssuesBound | vividoc/core/evaluator.py:36-45 | at most three issues per unit |
| Evaluator.CollectEmptyIff | vividoc/core/evaluator.py:36-45 | the collection is empty exactly when every item's part is |
| Evaluator.IssuesEmptyIff | vividoc/core/evaluator.py:36-47 | no issues exactly when every unit completed both stages and validated |
| Evaluator.UnitIssuesEmptyIff | vividoc/core/evaluator.py:38-45 | a unit has no issue exactly when it is clean |
| Evaluator.UnitIssuesNameUnit | vividoc/core/evaluator.py:38-45 | every issue starts with `<unit id>: ` |
| Evaluator.CollectFrom | vividoc/core/evaluator.py:36-45 | each collected entry comes from some item |
| Evaluator.CollectHas | vividoc/core/evaluator.py:36-45 | each item's entries are collected |
| Evaluator.IssueNamesUnit | vividoc/core/evaluator.py:36-45 | every issue names a unit of the document |
| Evaluator.UnvalidatedIsReported | vividoc/core/evaluator.py:44-45 | an unvalidated unit is reported as `HTML validation failed` |
| Evaluator.ExecutedDocumentIssues | vividoc/core/evaluator.py:36-47 | for a document the executor produced, no issues exactly when every unit validated |
| Evaluator.Stage1Issue | vividoc/core/evaluator.py:38-39 | `<id>: Stage 1 (text content) not completed` |
| Evaluator.Stage2Issue | vividoc/core/evaluator.py:40-41 | `<id>: Stage 2 (interactive content) not completed` |
| Evaluator.ValidationIssue | vividoc/core/evaluator.py:44-45 | `<id>: HTML validation failed` |
| Evaluator.Stage1Part | vividoc/core/evaluator.py:38-39 | the stage-1 issue, present exactly when stage 1 is incomplete |
| Evaluator.Stage2Part | vividoc/core/evaluator.py:40-41 | the stage-2 issue, present exactly when stage 2 is incomplete |
| Evaluator.ValidationPart | vividoc/core/evaluator.py:44-45 | the validation issue, present exactly when the unit is not validated |
| Evaluator.UnitIssues | vividoc/core/evaluator.py:38-45 | a unit's issues in check order; UnitIssuesEmptyIff and UnitIssuesNameUnit state their properties |
| Evaluator.Collect | vividoc/core/evaluator.py:36-45 | the per-item lists one after another; CollectEmptyIff, CollectFrom and CollectHas state its properties |
| Evaluator.Issues | vividoc/core/evaluator.py:32-47 | `check_components`; IssuesEmptyIff and IssuesBound state its properties |
| Evaluator.Clean | vividoc/core/evaluator.py:38-45 | both stages completed and validated |
| SpecService.WithoutIndexOutside | vividoc/entrypoint/services/spec_service.py:186 | filtering by an index outside the list keeps it whole |
| SpecService.WithoutIndexIsRemoval | vividoc/entrypoint/services/spec_service.py:186 | the comprehension removes exactly the unit at the index |
| SpecService.Range | vividoc/entrypoint/services/spec_service.py:265 | `range(n)` lists 0..n-1 |
| SpecService.Pick | vividoc/entrypoint/services/spec_service.py:271 | the picked list has one unit per index |
| SpecService.PickAt | vividoc/entrypoint/services/spec_service.py:271 | position i holds the unit at `new_order[i]` |
| SpecService.PickAppend | vividoc/entrypoint/services/spec_service.py:271 | picking with a concatenation concatenates |
| SpecService.SortsToRangeBounds | vividoc/entrypoint/services/spec_service.py:259-269 | an order that sorts to `range(n)` has length n and in-range indices |
| SpecService.MultisetMiddle | vividoc/entrypoint/services/spec_service.py:271 | removing a middle element removes it from the multiset |
| SpecService.PickSplit | vividoc/entrypoint/services/spec_service.py:271 | picking splits around one index |
| SpecService.PickWithout | vividoc/entrypoint/services/spec_service.py:271 | dropping one index drops its unit from the picked multiset |
| SpecService.PickRespectsMultiset | vividoc/entrypoint/services/spec_service.py:271 | index lists with equal multisets pick equal multisets of units |
| SpecService.PickRange | vividoc/entrypoint/services/spec_service.py:271 | picking `range(n)` is the first n units |
| SpecService.DeletedKu | vividoc/entrypoint/services/spec_service.py:182-191 | the `IndexError` exactly when the index is out of range; otherwise the topic is kept and exactly that unit is removed |
| SpecService.AddedKu | vividoc/entrypoint/services/spec_service.py:219-231 | the `ValueError` exactly when the position is outside 0..len; otherwise the unit is inserted there |
| SpecService.PickPermutes | vividoc/entrypoint/services/spec_service.py:259-271 | a valid new order yields a permutation of the units |
| SpecService.ReorderedKus | vividoc/entrypoint/services/spec_service.py:259-276 | the length error, then the permutation error; on success the units are in the new order |
| SpecService.AddThenDelete | vividoc/entrypoint/services/spec_service.py:161-233 | adding a unit at a position and deleting that position restores the spec |
| SpecService.ReorderIdentity | vividoc/entrypoint/services/spec_service.py:235-278 | reordering by `range(n)` changes nothing |
| SpecService.NotFound | vividoc/entrypoint/services/spec_service.py:133 | the `KeyError` naming the unknown spec id |
| SpecService.WithoutIndex | vividoc/entrypoint/services/spec_service.py:186 | `[ku for i, ku in enumerate(s) if i != k]`; WithoutIndexIsRemoval states it removes exactly that unit |
| SpecService.InsertAt | vividoc/entrypoint/services/spec_service.py:224-225 | `list(s)` then `insert(p, x)`; AddThenDelete states deleting p restores the list |
| SpecService.SortsToRange | vividoc/entrypoint/services/spec_service.py:265 | `sorted(order) == list(range(n))`, as equal multisets |
| SpecService.InBounds | vividoc/entrypoint/services/spec_service.py:271 | every index of the order can be used on the unit list |
| SpecService.StoredTopic | vividoc/entrypoint/services/spec_service.py:155 | the topic stored next to the spec, falling back to the spec's own |
| SpecService.SpecService.constructor | vividoc/entrypoint/services/spec_service.py:16-34 | starts with no specs and no topics |
| SpecService.SpecService.GenerateSpec | vividoc/entrypoint/services/spec_service.py:96-117 | stores the planned spec and its topic under the id and returns both |
| SpecService.SpecService.GetSpec | vividoc/entrypoint/services/spec_service.py:119-135 | the stored spec, or `KeyError` exactly when the id is unknown |
| SpecService.SpecService.UpdateSpec | vividoc/entrypoint/services/spec_service.py:137-159 | replaces a known spec, keeping its stored topic; unknown ids are refused with no change |
| SpecService.SpecService.Store | vividoc/entrypoint/services/spec_service.py:186-193 | stores a successful edit under its stored topic; a failed edit changes nothing |
| SpecService.SpecService.DeleteKu | vividoc/entrypoint/services/spec_service.py:161-193 | unknown ids are refused with no change; otherwise the delete edit's result is stored and returned |
| SpecService.SpecService.AddKu | vividoc/entrypoint/services/spec_service.py:195-233 | unknown ids are refused; otherwise the insert edit's result is stored and returned |
| SpecService.SpecService.ReorderKus | vividoc/entrypoint/services/spec_service.py:235-278 | unknown ids are refused; otherwise the reorder edit's result is stored and returned |
| ApiModels.KusToApi | backend/models/api_models.py:55-65 | each unit converts to its API form, in order |
| ApiModels.KusFromApi | backend/models/api_models.py:68-73 | each API unit converts back, in order |
| ApiModels.KuSpecRoundTrip | backend/models/api_models.py:34-52 | a round trip copies the text description into the interaction description, and is the identity exactly when the two descriptions agree |
| ApiModels.KuApiRoundTrip | backend/models/api_models.py:34-52 | a round trip from the API form loses the objectives and prerequisites |
| ApiModels.DocSpecRoundTrip | backend/models/api_models.py:55-73 | a document round trip keeps the topic and count, and each unit's other fields |
| ApiModels.DocSpecRoundTripExact | backend/models/api_models.py:55-73 | when every unit's two descriptions agree, the round trip is exact |
| ApiModels.DocApiRoundTrip | backend/models/api_models.py:55-73 | an API round trip keeps the id and topic, and clears the objectives and prerequisites |
| ApiModels.KuSpecToApi | backend/models/api_models.py:34-42 | summary to title, text description to description, no objectives or prerequisites; KuSpecRoundTrip states what a round trip keeps |
| ApiModels.ApiToKuSpec | backend/models/api_models.py:45-52 | the one description serves as both descriptions; KuApiRoundTrip states what a round trip keeps |
| ApiModels.DocSpecToApi | backend/models/api_models.py:55-65 | the id given, the topic kept, the units converted in order, and the two timestamps supplied by the caller |
| ApiModels.ApiToDocSpec | backend/models/api_models.py:68-73 | the topic kept and the units converted back; the id and metadata are dropped |
| MarkdownIo.WordEnd | vividoc/utils/io.py:9 | the end of an optional `\w+` language tag |
| MarkdownIo.ContentStart | vividoc/utils/io.py:9 | content starts after the opening fence, its tag and whitespace |
| MarkdownIo.FencedContent | vividoc/utils/io.py:9-13 | a block is found exactly when the first fence is followed by a second one; its content holds no fence and has no whitespace at either end (ClosedBlock states which slice it is) |
| MarkdownIo.FirstFenceSliceClear | vividoc/utils/io.py:9-10 | nothing before the closing fence is another fence |
| MarkdownIo.ExtractFromMarkdown | vividoc/utils/io.py:3-22 | parsed JSON when the block parses; the block's text when it does not; the original text without a block |
| MarkdownIo.NoFenceUnchanged | vividoc/utils/io.py:20-22 | text without a fence is returned as is |
| MarkdownIo.UnclosedFenceUnchanged | vividoc/utils/io.py:9-22 | a fence with no second fence after it is no block, so the text is returned as is |
| MarkdownIo.TextResultIsContent | vividoc/utils/io.py:12-18 | a changed text result is the fenced content, with no fence left |
| MarkdownIo.IsWordChar | vividoc/utils/io.py:9 | the regex class `\w`, over ASCII |
| MarkdownIo.ContentStartSkipsNoFence | vividoc/utils/io.py:9-10 | no fence starts inside the language tag or the whitespace after it, so the closing fence is the first one after the opening fence |
| MarkdownIo.FindSkips | vividoc/utils/io.py:9-10 | searching for a fence from either end of a backtick-free stretch finds the same fence |
| MarkdownIo.BlockParts | vividoc/utils/io.py:9-13 | a block between two fences split into tag, whitespace, stripped content and whitespace |
| MarkdownIo.ClosedBlock | vividoc/utils/io.py:9-13 | when a second fence follows the first, the block is found and its content is the slice after the tag and the surrounding whitespace |
| MarkdownIo.StripInside | vividoc/utils/io.py:13 | where the stripped content lies in the text, with only whitespace around it |
| Config.SortedModels | vividoc/core/config.py:6-12 | `sorted(AVAILABLE_LLM_MODELS)`: strictly increasing and holding exactly the models |
| Config.ValidateLlmModel | vividoc/core/config.py:27-44 | no error exactly when the model is available; otherwise the listing message |
| Config.NewRunnerConfig | vividoc/core/config.py:15-48 | a configuration exists exactly for an available model; otherwise the `ValueError` text |
| Config.DefaultConfigValid | vividoc/core/config.py:19-20 | the defaults are valid, with 3 fix attempts |
| Config.ModelsHaveProvider | vividoc/core/config.py:6-12 | every available model has the form `provider/model-name` |
| Config.MessageNamesModel | vividoc/core/config.py:40-41 | the error starts by naming the rejected model |
| Config.MessageHasHeading | vividoc/core/config.py:42 | the error has the `Available models:` heading |
| Config.MessageListsModels | vividoc/core/config.py:39-42 | the error lists every model it is given |
| Config.InvalidModelMessageContents | vividoc/core/config.py:38-44 | the rejection names the model and lists every available model |
| Config.ContainsWithin | vividoc/core/config.py:39-43 | an occurrence stays an occurrence inside a longer text |
| Config.ContainsSelf | vividoc/core/config.py:39-43 | a string occurs in itself |
| Config.JoinContainsPart | vividoc/core/config.py:39 | each joined part occurs in the join |
| Config.ContainsInFourth | vividoc/core/config.py:40-43 | an occurrence in the list part of the message is in the message |
| Config.LexLess | vividoc/core/config.py:39 | Python's string order, code point by code point with a proper prefix first; SortedModels is strictly increasing in it |
| Config.MessageListing | vividoc/core/config.py:39-44 | the `ValueError` text for a list of models: the rejected model, the heading, one model per line, the format line |
| Config.MessageHead | vividoc/core/config.py:41 | the first line, naming the rejected model |
| Config.InvalidModelMessage | vividoc/core/config.py:38-44 | the message with the sorted available models; InvalidModelMessageContents states what it contains |
| Config.DefaultConfig | vividoc/core/config.py:19-25 | `RunnerConfig()` with every default; DefaultConfigValid states it is accepted with 3 fix attempts |
| SplitDataset.Classify | vividoc/prep/split_dataset.py:17-28 | explorable when accessible and explorable; non-explorable when only accessible; dead when inaccessible, both ways |
| SplitDataset.Filed | vividoc/prep/split_dataset.py:16-28 | a bucket holds at most as many rows as the input |
| SplitDataset.PrefixStep | vividoc/prep/split_dataset.py:16-28 | one more row goes only to its own bucket |
| SplitDataset.Split | vividoc/prep/split_dataset.py:16-28 | the loop fills each list with exactly the rows of its bucket, in input order |
| SplitDataset.FiledLast | vividoc/prep/split_dataset.py:20-28 | the last row is counted in exactly its bucket |
| SplitDataset.FiledPartition | vividoc/prep/split_dataset.py:16-28 | whatever the classifier, the buckets together are the input as a multiset |
| SplitDataset.AddToOneBucket | vividoc/prep/split_dataset.py:20-28 | adding a row to one bucket adds it to the union |
| SplitDataset.SplitIsPartition | vividoc/prep/split_dataset.py:16-28 | the three files hold exactly the input rows, each once |
| SplitDataset.SplitCounts | vividoc/prep/split_dataset.py:43-45 | the three reported row counts add up to the input count |
| SplitDataset.Flag | vividoc/prep/split_dataset.py:17-18 | `value.strip().lower() == "true"` |
| SplitDataset.InBucket | vividoc/prep/split_dataset.py:16-28 | the rows of one bucket, in input order |
| CallerRegistry.Registry.constructor | vividoc/utils/llm/caller_registry.py:6 | the registry starts empty |
| CallerRegistry.Registry.RegisterCaller | vividoc/utils/llm/caller_registry.py:9-16 | a new name is registered and the class returned; a taken name raises and keeps the first registration; earlier entries are never lost |
| CallerRegistry.AlreadyRegistered | vividoc/utils/llm/caller_registry.py:12 | the `ValueError` text naming the taken caller name |

## Left out

- Threads, the job lock and `start_job` (`backend/services/job_manager.py:79-92`): the model runs the background generation as a direct call, and concurrent interleavings are not modelled.
- File I/O: reading and writing the HTML file, the state files and the metadata JSON; the CSV reading and writing of the split script; the spec service's disk store (`_save_spec_to_disk`, `_load_specs_from_disk`, `_delete_spec_from_disk`, `_topic_to_uuid`). The executor keeps the file and the saved states as fields instead.
- `get_html` in the document service reads a file and is left out.
- The LLM, the prompts' text, the planner, the HTML tokenizer (Python's `HTMLParser`) and `json.loads` are parameters, so their behaviour is assumed rather than modelled.
- Job ids, document ids and timestamps come from `uuid4` and `datetime.now()`; they are parameters. Fresh ids are required to be unused.
- Logging is left out.
- Percentages are real numbers, not IEEE floats.
- `\w` in the fence pattern is approximated by ASCII letters, digits and `_`. Python's whitespace set is written out.
- The job stores a snapshot of the progress list, not the same list object. The source shares one list between job and callback, so later in-place updates also show in the job; the model instead stores the list after each update, which gives the same contents at every update.
- ExecutorWithProgress.ExecutorWithProgress.Run: the interleaving of reports and work is a ghost timeline; the reports the callback receives are real.
- The document service calls `self.evaluator.evaluate(...)`, but the `Evaluator` in `vividoc/core/evaluator.py` defines `run`, not `evaluate`. The call would raise and be caught as an evaluation error. The model takes the evaluation as a parameter returning a result or an error, which covers both.
- The document service imports its job manager from its own package. The job manager modelled here is `backend/services/job_manager.py`, with the same interface.
- The overall percent is not monotone. After a complete run the last report sets 100, the evaluating update then sets 95, and completion sets 100 again. The model states the updates as the code makes them.
- `vividoc/executor.py` `_read_html`, `_write_html` and the HTML skeleton template are file operations; the skeleton is a parameter.
- Common.Lower: only ASCII letters are folded. Python's `str.lower()` also folds other letters, and some of them change the length (`'İ'.lower()` has two characters). The only use is the test `== "true"`. The only non-ASCII characters that `lower()` turns into ASCII letters are `'İ'` (to `i` and a combining dot) and the Kelvin sign (to `k`), and neither can produce `"true"`, so the ASCII fold gives the same verdict.
- Executor.Executor.Attempts: the model's LLM (`type Llm`) always returns a reply. In the source, `call_text_generation` (`vividoc/executor.py:79-81` and `131-133`) can raise. That exception ends the stage, the unit and the whole run.
- Executor.Executor.Run: an exception from the LLM aborts `run` in the source. Earlier units have then been saved and the HTML file rewritten, and no metadata is written. The model has no exception path here. The document service sees a failing run through the `Err` outcome of its executor parameter (`FailedBeforeReportsJob`, `FinishedJobState`).
- `vividoc/entrypoint/services/executor_with_progress.py` imports `vividoc.core.executor` and `vividoc.core.models`. The model takes these to be `vividoc/executor.py` and `vividoc/models.py`, which define the same names.
