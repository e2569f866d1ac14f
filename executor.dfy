/** The execution phase: every knowledge unit is filled in two stages (text, then
    interactive content) by asking the language model for the whole document again,
    keeping the first reply that looks like a complete HTML document, and finally
    checking the unit's section with the HTML validator.

    The document file is the string `html`; the saved intermediate states are a map
    from (scope id, stage name) to text; the language model is a function from the
    prompt and the attempt number to its reply; the `html.parser` tokenizer is a
    function from text to tokens. */
module Executor {
  import opened Common
  import opened Models
  import HtmlValidator

  /** What one generation request is made of: the HTML the model starts from, the
      unit's scope id and the stage's description of the unit. */
  datatype Prompt =
    | Stage1Prompt(currentHtml: string, scopeId: string, textDescription: string)
    | Stage2Prompt(currentHtml: string, scopeId: string, interactionDescription: string)

  /** The language model's reply to a prompt on a given attempt (1-based). */
  type Llm = (Prompt, nat) -> string

  /** The `html.parser` tokenizer run over a section. */
  type Tokenizer = string -> HtmlValidator.Tokenization

  /** `ExecutorConfig`'s default number of generation attempts per stage. */
  const DefaultMaxFixAttempts: int := 3

  /** Code-fence cleanup of a reply: inside the first ```` ```html ```` block, else
      between the first two ```` ``` ```` fences, then stripped. */
  function CleanFences(reply: string): (r: string)
    ensures !Contains(r, "```")
    ensures !Contains(reply, "```") ==> r == reply
  {
    HtmlFenceIsFence(reply);
    if Contains(reply, "```html") then FencePiece(reply, "```html")
    else if Contains(reply, "```") then FencePiece(reply, "```")
    else reply
  }

  /** `reply.split(open)[1].split("```")[0].strip()`. */
  function FencePiece(reply: string, open: string): (r: string)
    requires open != [] && Contains(reply, open)
    ensures !Contains(r, "```")
  {
    var inner := Before(AfterFirst(reply, open), "```");
    StripKeepsOut(inner, "```");
    Strip(inner)
  }

  /** r is the stripped text after the first open, at i, up to the first fence
      before the next open (at k, or the end). */
  predicate PieceAfter(reply: string, open: string, r: string)
    requires Contains(reply, open)
  {
    var i := Find(reply, open, 0).value;
    var k := NextOrEnd(reply, open, i + |open|);
    i + |open| <= k &&
    match Find(reply[..k], "```", i + |open|)
    case Some(j) => i + |open| <= j <= k && r == Strip(reply[i + |open|..j])
    case None => r == Strip(reply[i + |open|..k])
  }

  lemma FencePieceSpan(reply: string, open: string)
    requires open != [] && Contains(reply, open)
    ensures PieceAfter(reply, open, FencePiece(reply, open))
  {
    BeforeAfterFirst(reply, open, "```");
  }

  lemma HtmlFenceIsFence(reply: string)
    ensures Contains(reply, "```html") ==> Contains(reply, "```")
  {
    if Contains(reply, "```html") {
      var i := Find(reply, "```html", 0).value;
      assert reply[i..i + 7] == "```html";
      assert reply[i..i + 3] == reply[i..i + 7][..3] == "```";
      assert OccursAt(reply, "```", i);
      ContainsIff(reply, "```");
    }
  }

  /** A reply fenced without an `html` tag is cut down to the text strictly between
      its first fence and the next one (or the end), stripped. */
  lemma CleanFencesPlain(reply: string)
    requires Contains(reply, "```") && !Contains(reply, "```html")
    ensures var i := Find(reply, "```", 0).value;
            match Find(reply, "```", i + 3)
            case Some(j) => CleanFences(reply) == Strip(reply[i + 3..j])
            case None => CleanFences(reply) == Strip(reply[i + 3..])
  {
    var inner := AfterFirst(reply, "```");
    assert CleanFences(reply) == FencePiece(reply, "```") == Strip(Before(inner, "```"));
    assert Before(inner, "```") == inner;
    AfterFirstSpan(reply, "```", Find(reply, "```", 0).value);
  }

  /** A reply with an ```` ```html ```` fence at i is cut down to the text after that
      fence, up to the first ```` ``` ```` before the next ```` ```html ```` (at k, or the
      end), stripped. A plain fence that begins inside a later ```` ```html ```` is not
      seen: `split("```html")` has already cut the reply there. */
  lemma CleanFencesHtml(reply: string)
    requires Contains(reply, "```html")
    ensures PieceAfter(reply, "```html", CleanFences(reply))
  {
    assert CleanFences(reply) == FencePiece(reply, "```html");
    FencePieceSpan(reply, "```html");
  }

  /** With a single ```` ```html ```` fence, at i, the result is the stripped text from
      after it to the next ```` ``` ```` fence, or to the end. */
  lemma CleanFencesSingleHtml(reply: string)
    requires Contains(reply, "```html")
    requires Find(reply, "```html", Find(reply, "```html", 0).value + 7).None?
    ensures var i := Find(reply, "```html", 0).value;
            match Find(reply, "```", i + 7)
            case Some(j) => CleanFences(reply) == Strip(reply[i + 7..j])
            case None => CleanFences(reply) == Strip(reply[i + 7..])
  {
    CleanFencesHtml(reply);
    assert reply[..|reply|] == reply;
  }

  /** A cleaned reply the stage keeps: after its leading whitespace it starts with the
      doctype, and it contains the closing html tag (`AcceptsStripped` shows this is
      the `strip().startswith(...)` test). */
  predicate Accepts(h: string)
  {
    StartsWith(h[SkipSpace(h, 0)..], "<!DOCTYPE html") && Contains(h, "</html>")
  }

  /** The acceptance test as the stages write it, on the stripped reply. */
  lemma AcceptsStripped(h: string)
    ensures Accepts(h) <==> StartsWith(Strip(h), "<!DOCTYPE html") && Contains(h, "</html>")
  {
    var x := "<!DOCTYPE html";
    var i := SkipSpace(h, 0);
    var j := TrimEnd(h, i);
    assert Strip(h) == h[i..j];
    if StartsWith(h[i..], x) {
      assert h[i + |x| - 1] == h[i..][|x| - 1] == 'l';
      assert !IsSpace(h[i + |x| - 1]);
      assert i + |x| <= j;
      assert h[i..j][..|x|] == h[i..][..|x|];
    }
    if StartsWith(h[i..j], x) {
      assert h[i..j][..|x|] == h[i..][..|x|];
    }
  }

  /** The number of iterations of `range(1, bound + 1)`. */
  function Bound(maxFixAttempts: int): nat
  {
    if maxFixAttempts < 0 then 0 else maxFixAttempts
  }

  /** The cleaned replies to attempts 1..n with one prompt. */
  function Candidates(llm: Llm, prompt: Prompt, clean: string -> string, n: nat): (cs: seq<string>)
    ensures |cs| == n
  {
    if n == 0 then [] else Candidates(llm, prompt, clean, n - 1) + [clean(llm(prompt, n))]
  }

  /** The k-th candidate (0-based) is the cleaned reply to attempt k + 1. */
  lemma {:induction false} CandidateAt(llm: Llm, prompt: Prompt, clean: string -> string, n: nat, k: nat)
    requires k < n
    ensures Candidates(llm, prompt, clean, n)[k] == clean(llm(prompt, k + 1))
  {
    if k < n - 1 {
      CandidateAt(llm, prompt, clean, n - 1, k);
    }
  }

  /** The index of the first accepted candidate at or after `from`. */
  function FirstAccepted(cs: seq<string>, accept: string -> bool, from: nat): (r: Option<nat>)
    ensures r.Some? ==> from <= r.value < |cs| && accept(cs[r.value])
    ensures r.Some? ==> forall k :: from <= k < r.value ==> !accept(cs[k])
    ensures r.None? ==> forall k :: from <= k < |cs| ==> !accept(cs[k])
    decreases |cs| - from
  {
    if |cs| <= from then None
    else if accept(cs[from]) then Some(from)
    else FirstAccepted(cs, accept, from + 1)
  }

  /** The requests of attempts 1..n with one prompt. */
  function Requests(prompt: Prompt, n: nat): (r: seq<(Prompt, nat)>)
    ensures |r| == n
  {
    if n == 0 then [] else Requests(prompt, n - 1) + [(prompt, n)]
  }

  /** Request k (0-based) is attempt k + 1 with the stage's prompt. */
  lemma {:induction false} RequestAt(prompt: Prompt, n: nat, k: nat)
    requires k < n
    ensures Requests(prompt, n)[k] == (prompt, k + 1)
  {
    if k < n - 1 {
      RequestAt(prompt, n - 1, k);
    }
  }

  lemma RequestsStep(calls: seq<(Prompt, nat)>, prompt: Prompt, n: nat)
    ensures calls + Requests(prompt, n) + [(prompt, n + 1)] == calls + Requests(prompt, n + 1)
  {
  }

  /** The request of a stage, built from the HTML it starts from. */
  function StagePrompt(stage: nat, currentHtml: string, scopeId: string, description: string): Prompt
  {
    if stage == 1 then Stage1Prompt(currentHtml, scopeId, description)
    else Stage2Prompt(currentHtml, scopeId, description)
  }

  /** The section `re.search` finds for `<section[^>]*id="{scope}"[^>]*>.*?</section>`
      (with DOTALL) when the match starts at i: the opening tag's text up to its
      first `>` holds the id attribute, and the match ends at the first
      `</section>` after that `>`. */
  function SectionAt(h: string, scopeId: string, i: nat): (r: Option<string>)
    ensures r.Some? ==> StartsWith(r.value, "<section") && Contains(r.value, "id=\"" + scopeId + "\"")
    ensures r.Some? ==> |r.value| >= 10 && r.value[|r.value| - 10..] == "</section>"
  {
    if !OccursAt(h, "<section", i) then None
    else match Find(h, ">", i + 8)
      case None => None
      case Some(g) =>
        if !Contains(h[i + 8..g], "id=\"" + scopeId + "\"") then None
        else match Find(h, "</section>", g + 1)
          case None => None
          case Some(e) =>
            SpanFacts(h, "<section", i, g, e, 10, "id=\"" + scopeId + "\"");
            Some(h[i..e + 10])
  }

  /** The slice of h from an occurrence of `open` at i to b characters past e starts
      with `open`, ends with those b characters and keeps any occurrence of x that
      lies between `open` and g. */
  lemma SpanFacts(h: string, open: string, i: nat, g: nat, e: nat, b: nat, x: string)
    requires OccursAt(h, open, i)
    requires i + |open| <= g <= e && e + b <= |h|
    requires Contains(h[i + |open|..g], x)
    ensures StartsWith(h[i..e + b], open)
    ensures Contains(h[i..e + b], x)
    ensures |h[i..e + b]| >= b && h[i..e + b][|h[i..e + b]| - b..] == h[e..e + b]
  {
    var r := h[i..e + b];
    assert r[..|open|] == h[i..i + |open|];
    assert h[i + |open|..g] == r[|open|..g - i] by {
      var y, z := h[i + |open|..g], r[|open|..g - i];
      forall t | 0 <= t < |y| ensures y[t] == z[t] {
        assert y[t] == h[i + |open| + t];
        assert z[t] == r[|open| + t] == h[i + |open| + t];
      }
    }
    ContainsSlice(r, x, |open|, g - i);
  }

  /** The leftmost match at or after `from`. */
  function FindSection(h: string, scopeId: string, from: nat): (r: Option<string>)
    requires from <= |h|
    ensures r.Some? ==> StartsWith(r.value, "<section") && Contains(r.value, "id=\"" + scopeId + "\"")
    ensures r.Some? ==> |r.value| >= 10 && r.value[|r.value| - 10..] == "</section>"
    ensures r.None? ==> forall i: nat :: from <= i <= |h| ==> SectionAt(h, scopeId, i).None?
    decreases |h| - from
  {
    match SectionAt(h, scopeId, from)
    case Some(s) => Some(s)
    case None => if from == |h| then None else FindSection(h, scopeId, from + 1)
  }

  /** `validate_section`: the validator's verdict on the unit's section, or a
      not-found message. */
  function ValidateSection(htmlContent: string, scopeId: string, tokenize: Tokenizer): (r: (bool, string))
    ensures r.0 <==> r.1 == ""
    ensures FindSection(htmlContent, scopeId, 0).None? ==>
              r == (false, "Section " + scopeId + " not found in HTML")
    ensures r.0 ==> FindSection(htmlContent, scopeId, 0).Some? &&
                    var t := tokenize(FindSection(htmlContent, scopeId, 0).value);
                    t.Tokens? && HtmlValidator.Accepted(HtmlValidator.CloseState(HtmlValidator.FeedAll(HtmlValidator.Initial, t.tokens)))
    ensures FindSection(htmlContent, scopeId, 0).Some? ==>
              r == HtmlValidator.Verdict(tokenize(FindSection(htmlContent, scopeId, 0).value))
  {
    match FindSection(htmlContent, scopeId, 0)
    case None => (false, "Section " + scopeId + " not found in HTML")
    case Some(section) => HtmlValidator.Verdict(tokenize(section))
  }

  /** The two stages whose results are saved per unit. */
  datatype StageName = Stage1 | Stage2

  /** The text `_load_state` reads back: the saved state, or "" when there is none. */
  function LoadState(states: map<(string, StageName), string>, scopeId: string, stage: StageName): string
  {
    if (scopeId, stage) in states then states[(scopeId, stage)] else ""
  }

  /** The unit state with both stages done and the given validation outcome. */
  function Finished(ku: KnowledgeUnitSpec, validated: bool): (st: KnowledgeUnitState)
    ensures st.id == ku.id && st.unitContent == ku.unitContent
    ensures st.stage1Completed && st.stage2Completed && st.validated == validated
  {
    InitialState(ku).(stage1Completed := true, stage2Completed := true, validated := validated)
  }

  /** The saved states after one unit: its stage-1 text when that stage ran, then
      its stage-2 text. */
  function SaveUnit(states: map<(string, StageName), string>, scopeId: string,
                    stage1: Option<string>, stage2: string): (r: map<(string, StageName), string>)
    ensures (scopeId, Stage2) in r && r[(scopeId, Stage2)] == stage2
    ensures forall key :: key in states && key.0 != scopeId ==> key in r && r[key] == states[key]
  {
    (if stage1.Some? then states[(scopeId, Stage1) := stage1.value] else states)[(scopeId, Stage2) := stage2]
  }

  /** Unit i (1-based) has `finals[i - 1]` saved as its stage-2 state. */
  predicate StagesSaved(states: map<(string, StageName), string>, finals: seq<string>)
    decreases |finals|
  {
    |finals| == 0 ||
    (StagesSaved(states, finals[..|finals| - 1]) &&
     (ScopeId(|finals|), Stage2) in states && states[(ScopeId(|finals|), Stage2)] == finals[|finals| - 1])
  }

  /** Saving another unit keeps what was saved for units 1..|finals|. */
  lemma {:induction false} StagesSavedKept(states: map<(string, StageName), string>, finals: seq<string>,
                                           scopeId: string, stage1: Option<string>, stage2: string)
    requires StagesSaved(states, finals)
    requires forall j: nat :: 1 <= j <= |finals| ==> ScopeId(j) != scopeId
    ensures StagesSaved(SaveUnit(states, scopeId, stage1, stage2), finals)
    decreases |finals|
  {
    if |finals| > 0 {
      StagesSavedKept(states, finals[..|finals| - 1], scopeId, stage1, stage2);
    }
  }

  /** Saving unit |finals| + 1 extends what is saved by its stage-2 text. */
  lemma StagesSavedStep(states: map<(string, StageName), string>, finals: seq<string>,
                        stage1: Option<string>, stage2: string)
    requires StagesSaved(states, finals)
    ensures StagesSaved(SaveUnit(states, ScopeId(|finals| + 1), stage1, stage2), finals + [stage2])
  {
    var n := |finals|;
    forall j: nat | 1 <= j <= n
      ensures ScopeId(j) != ScopeId(n + 1)
    {
      if ScopeId(j) == ScopeId(n + 1) {
        ScopeIdInjective(j, n + 1);
      }
    }
    StagesSavedKept(states, finals, ScopeId(n + 1), stage1, stage2);
    assert (finals + [stage2])[..n] == finals;
  }

  /** The per-unit reading of `StagesSaved`. */
  lemma {:induction false} StagesSavedAt(states: map<(string, StageName), string>, finals: seq<string>, i: nat)
    requires StagesSaved(states, finals) && i < |finals|
    ensures (ScopeId(i + 1), Stage2) in states && states[(ScopeId(i + 1), Stage2)] == finals[i]
    decreases |finals|
  {
    if i < |finals| - 1 {
      StagesSavedAt(states, finals[..|finals| - 1], i);
    }
  }

  /** Resuming finds the unit's stage 2 already saved. */
  predicate Resumed(resume: bool, states: map<(string, StageName), string>, scopeId: string)
  {
    resume && LoadState(states, scopeId, Stage2) != ""
  }

  /** `validate_section` as the executor holds it: the section check built on the
      HTML validator's tokenizer. */
  type SectionCheck = (string, string) -> (bool, string)

  function SectionChecker(tokenize: Tokenizer): SectionCheck
  {
    (h, scopeId) => ValidateSection(h, scopeId, tokenize)
  }

  /** Unit i (1-based) of `units` was validated exactly when the section check of
      scope `ku<i>` passes on `finals[i - 1]`. */
  predicate ValidatedAgainst(units: seq<KnowledgeUnitState>, finals: seq<string>, check: SectionCheck)
    decreases |units|
  {
    |units| == |finals| &&
    (|units| == 0 ||
     (ValidatedAgainst(units[..|units| - 1], finals[..|finals| - 1], check) &&
      units[|units| - 1].validated == check(finals[|finals| - 1], ScopeId(|units|)).0))
  }

  /** The per-unit reading of `ValidatedAgainst`. */
  lemma {:induction false} ValidatedAt(units: seq<KnowledgeUnitState>, finals: seq<string>, check: SectionCheck, i: nat)
    requires ValidatedAgainst(units, finals, check) && i < |units|
    ensures units[i].validated == check(finals[i], ScopeId(i + 1)).0
    decreases |units|
  {
    if i < |units| - 1 {
      ValidatedAt(units[..|units| - 1], finals[..|finals| - 1], check, i);
    }
  }

  /** With the executor's own section check, a unit reported valid has its section
      in the file saved after it, and the validator accepts that section. */
  lemma ValidatedSectionAccepted(units: seq<KnowledgeUnitState>, finals: seq<string>, tokenize: Tokenizer, i: nat)
    requires ValidatedAgainst(units, finals, SectionChecker(tokenize)) && i < |units|
    ensures units[i].validated <==> ValidateSection(finals[i], ScopeId(i + 1), tokenize).0
    ensures units[i].validated ==>
              FindSection(finals[i], ScopeId(i + 1), 0).Some? &&
              tokenize(FindSection(finals[i], ScopeId(i + 1), 0).value).Tokens?
  {
    ValidatedAt(units, finals, SectionChecker(tokenize), i);
  }

  class Executor {
    const maxFixAttempts: int
    const resume: bool
    const outputDir: string
    /** `validate_section`, built on the executor's HTML validator. */
    const sectionCheck: SectionCheck
    /** The content of `<outputDir>/document.html`. */
    var html: string
    var htmlExists: bool
    /** `<outputDir>/states/<scope>_<stage>.html`, keyed by (scope id, stage). */
    var states: map<(string, StageName), string>
    /** Every request sent to the language model, in order. */
    ghost var llmCalls: seq<(Prompt, nat)>

    constructor (maxFixAttempts: int, resume: bool, outputDir: string, tokenize: Tokenizer,
                 html: string, htmlExists: bool, states: map<(string, StageName), string>)
      ensures this.maxFixAttempts == maxFixAttempts && this.resume == resume
      ensures sectionCheck == SectionChecker(tokenize)
      ensures this.outputDir == outputDir && this.html == html
      ensures this.htmlExists == htmlExists && this.states == states
      ensures llmCalls == []
    {
      this.maxFixAttempts := maxFixAttempts;
      this.resume := resume;
      this.outputDir := outputDir;
      this.sectionCheck := SectionChecker(tokenize);
      this.html := html;
      this.htmlExists := htmlExists;
      this.states := states;
      llmCalls := [];
    }

    function HtmlPath(): string
    {
      outputDir + "/document.html"
    }

    /** `_save_state`. */
    method SaveState(scopeId: string, stage: StageName, content: string)
      modifies this
      ensures states == old(states)[(scopeId, stage) := content]
      ensures html == old(html) && htmlExists == old(htmlExists) && llmCalls == old(llmCalls)
    {
      states := states[(scopeId, stage) := content];
    }

    /** The loop both stages share: for attempts 1..maxFixAttempts the model is
        asked for the document, its reply is cleaned, and the first accepted reply
        is written to the file and returned. A rejected reply writes nothing; stage 2
        then reads the file again. If every attempt is rejected, the file's content
        at entry is returned. */
    method Attempts(stage: nat, scopeId: string, description: string, llm: Llm,
                    clean: string -> string, accept: string -> bool) returns (result: string)
      modifies this
      ensures var p := StagePrompt(stage, old(html), scopeId, description);
              var cs := Candidates(llm, p, clean, Bound(maxFixAttempts));
              match FirstAccepted(cs, accept, 0)
              case Some(k) =>
                result == cs[k] && html == result &&
                llmCalls == old(llmCalls) + Requests(p, k + 1)
              case None =>
                result == old(html) && html == old(html) &&
                llmCalls == old(llmCalls) + Requests(p, Bound(maxFixAttempts))
      ensures states == old(states) && htmlExists == old(htmlExists)
    {
      var currentHtml := html;
      ghost var p := StagePrompt(stage, currentHtml, scopeId, description);
      ghost var cs := Candidates(llm, p, clean, Bound(maxFixAttempts));
      var tried: nat := 0;
      while tried < maxFixAttempts
        invariant tried <= Bound(maxFixAttempts)
        invariant html == old(html) && currentHtml == old(html)
        invariant FirstAccepted(cs, accept, 0) == FirstAccepted(cs, accept, tried)
        invariant llmCalls == old(llmCalls) + Requests(p, tried)
        invariant states == old(states) && htmlExists == old(htmlExists)
      {
        var attempt: nat := tried + 1;
        var prompt := StagePrompt(stage, currentHtml, scopeId, description);
        var reply := llm(prompt, attempt);
        llmCalls := llmCalls + [(prompt, attempt)];
        RequestsStep(old(llmCalls), p, tried);
        var updatedHtml := clean(reply);
        CandidateAt(llm, p, clean, Bound(maxFixAttempts), tried);
        if accept(updatedHtml) {
          html := updatedHtml;
          return updatedHtml;
        }
        if stage == 2 {
          currentHtml := html;
        }
        tried := attempt;
      }
      return currentHtml;
    }

    /** Stage 1 (text content): the first of at most `maxFixAttempts` replies that is
        accepted once cleaned is written and returned, and no further request is
        made; if none is, nothing is written and the content at entry is returned. */
    method ProcessStage1(ku: KnowledgeUnitSpec, scopeId: string, llm: Llm) returns (result: string)
      modifies this
      ensures var p := Stage1Prompt(old(html), scopeId, ku.textDescription);
              var cs := Candidates(llm, p, CleanFences, Bound(maxFixAttempts));
              match FirstAccepted(cs, Accepts, 0)
              case Some(k) =>
                result == cs[k] && html == result &&
                llmCalls == old(llmCalls) + Requests(p, k + 1)
              case None =>
                result == old(html) && html == old(html) &&
                llmCalls == old(llmCalls) + Requests(p, Bound(maxFixAttempts))
      ensures |llmCalls| <= |old(llmCalls)| + Bound(maxFixAttempts)
      ensures states == old(states) && htmlExists == old(htmlExists)
    {
      result := Attempts(1, scopeId, ku.textDescription, llm, CleanFences, Accepts);
    }

    /** Stage 2 (interactive content): as stage 1 with the interaction description,
        falling back to the stage-1 text in the file. */
    method ProcessStage2(ku: KnowledgeUnitSpec, scopeId: string, llm: Llm) returns (result: string)
      modifies this
      ensures var p := Stage2Prompt(old(html), scopeId, ku.interactionDescription);
              var cs := Candidates(llm, p, CleanFences, Bound(maxFixAttempts));
              match FirstAccepted(cs, Accepts, 0)
              case Some(k) =>
                result == cs[k] && html == result &&
                llmCalls == old(llmCalls) + Requests(p, k + 1)
              case None =>
                result == old(html) && html == old(html) &&
                llmCalls == old(llmCalls) + Requests(p, Bound(maxFixAttempts))
      ensures |llmCalls| <= |old(llmCalls)| + Bound(maxFixAttempts)
      ensures states == old(states) && htmlExists == old(htmlExists)
    {
      result := Attempts(2, scopeId, ku.interactionDescription, llm, CleanFences, Accepts);
    }

    /** One unit through both stages. Resuming with a saved stage-2 text restores it
        and reports every flag true without validating; resuming with only a saved
        stage-1 text restores it and runs stage 2; otherwise both stages run. In the
        last two cases the stage-2 text is saved and is the file's content, and the
        unit is validated against it. */
    method ProcessKnowledgeUnit(ku: KnowledgeUnitSpec, scopeId: string, llm: Llm)
      returns (st: KnowledgeUnitState, ghost savedStage1: Option<string>)
      modifies this
      ensures st.id == ku.id && st.unitContent == ku.unitContent
      ensures st.stage1Completed && st.stage2Completed
      ensures states == SaveUnit(old(states), scopeId, savedStage1, html)
      ensures savedStage1.Some? <==>
                !resume || (LoadState(old(states), scopeId, Stage2) == "" && LoadState(old(states), scopeId, Stage1) == "")
      ensures Resumed(resume, old(states), scopeId) ==>
                html == LoadState(old(states), scopeId, Stage2) && st.validated &&
                savedStage1.None? && llmCalls == old(llmCalls)
      ensures !Resumed(resume, old(states), scopeId) ==>
                st.validated == sectionCheck(html, scopeId).0
      ensures htmlExists == old(htmlExists)
    {
      st := InitialState(ku);
      savedStage1 := None;
      if resume {
        var stage2Html := LoadState(states, scopeId, Stage2);
        if stage2Html != "" {
          html := stage2Html;
          st := st.(stage1Completed := true, stage2Completed := true, validated := true);
          assert states == states[(scopeId, Stage2) := html];
          return;
        }
        var stage1Html := LoadState(states, scopeId, Stage1);
        if stage1Html != "" {
          html := stage1Html;
          st := st.(stage1Completed := true);
          var finalHtml := ProcessStage2(ku, scopeId, llm);
          SaveState(scopeId, Stage2, finalHtml);
          st := st.(stage2Completed := true);
          var (isValid, _) := sectionCheck(finalHtml, scopeId);
          st := st.(validated := isValid);
          return;
        }
      }
      var stage1Html := ProcessStage1(ku, scopeId, llm);
      SaveState(scopeId, Stage1, stage1Html);
      savedStage1 := Some(stage1Html);
      st := st.(stage1Completed := true);
      var finalHtml := ProcessStage2(ku, scopeId, llm);
      SaveState(scopeId, Stage2, finalHtml);
      st := st.(stage2Completed := true);
      var (isValid, _) := sectionCheck(finalHtml, scopeId);
      st := st.(validated := isValid);
    }

    /** One turn of `run`'s loop: process unit `idx` under its scope id and extend
        what has been saved and validated so far. */
    method RunUnit(ku: KnowledgeUnitSpec, idx: nat, llm: Llm,
                   ghost units: seq<KnowledgeUnitState>, ghost finals: seq<string>)
      returns (st: KnowledgeUnitState, ghost final: string)
      requires idx == |units| + 1 == |finals| + 1
      requires StagesSaved(states, finals)
      requires !resume ==> ValidatedAgainst(units, finals, sectionCheck)
      modifies this
      ensures Copies(st, ku)
      ensures final == html
      ensures StagesSaved(states, finals + [final])
      ensures !resume ==> ValidatedAgainst(units + [st], finals + [final], sectionCheck)
      ensures htmlExists == old(htmlExists)
    {
      ghost var statesBefore := states;
      ghost var saved1;
      st, saved1 := ProcessKnowledgeUnit(ku, ScopeId(idx), llm);
      final := html;
      StagesSavedStep(statesBefore, finals, saved1, html);
      assert (units + [st])[..idx - 1] == units && (finals + [final])[..idx - 1] == finals;
    }

    /** `run`: the skeleton is written unless resuming onto an existing file, then the
        units are processed in spec order under scope ids ku1..kuN. `finals[i]` is
        the file's content after unit i+1, which is also its saved stage-2 state. */
    method Run(spec: DocumentSpec, skeleton: string, llm: Llm)
      returns (doc: GeneratedDocument, ghost finals: seq<string>)
      modifies this
      ensures doc.topic == spec.topic && doc.htmlFilePath == HtmlPath()
      ensures |finals| == |spec.knowledgeUnits| && Processed(doc.knowledgeUnits, spec.knowledgeUnits)
      ensures StagesSaved(states, finals)
      ensures !resume ==> ValidatedAgainst(doc.knowledgeUnits, finals, sectionCheck)
      ensures htmlExists
    {
      if !resume || !htmlExists {
        html := skeleton;
        htmlExists := true;
      }
      var knowledgeUnits: seq<KnowledgeUnitState> := [];
      finals := [];
      var idx := 1;
      while idx <= |spec.knowledgeUnits|
        invariant 1 <= idx <= |spec.knowledgeUnits| + 1
        invariant |knowledgeUnits| == |finals| == idx - 1
        invariant Processed(knowledgeUnits, spec.knowledgeUnits[..idx - 1])
        invariant StagesSaved(states, finals)
        invariant !resume ==> ValidatedAgainst(knowledgeUnits, finals, sectionCheck)
        invariant htmlExists
      {
        var kuState, final := RunUnit(spec.knowledgeUnits[idx - 1], idx, llm, knowledgeUnits, finals);
        ProcessedStep(knowledgeUnits, spec.knowledgeUnits[..idx - 1], kuState, spec.knowledgeUnits[idx - 1]);
        assert spec.knowledgeUnits[..idx] == spec.knowledgeUnits[..idx - 1] + [spec.knowledgeUnits[idx - 1]];
        knowledgeUnits := knowledgeUnits + [kuState];
        finals := finals + [final];
        idx := idx + 1;
      }
      assert spec.knowledgeUnits[..idx - 1] == spec.knowledgeUnits;
      doc := GeneratedDocument(spec.topic, HtmlPath(), knowledgeUnits);
    }
  }
}
