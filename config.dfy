/** The pipeline's run configuration and the check it makes of the model name when a
    configuration is built. */
module Config {
  import opened Common

  /** `AVAILABLE_LLM_MODELS`. */
  const AvailableLlmModels: set<string> :=
    {"google/gemini-2.5-pro", "openrouter/google/gemini-2.5-pro", "openrouter/moonshotai/kimi-k2.5"}

  const DefaultLlmModel := "openrouter/google/gemini-2.5-pro"

  /** Python's string order: code point by code point, a proper prefix first. */
  predicate LexLess(a: string, b: string)
  {
    || (|a| < |b| && a == b[..|a|])
    || exists k :: 0 <= k < |a| && k < |b| && a[..k] == b[..k] && a[k] < b[k]
  }

  /** `sorted(AVAILABLE_LLM_MODELS)`: the models in increasing order, each once. */
  function SortedModels(): (r: seq<string>)
    ensures forall i, j :: 0 <= i < j < |r| ==> LexLess(r[i], r[j])
    ensures forall m :: m in r <==> m in AvailableLlmModels
    ensures |r| == |AvailableLlmModels|
  {
    var a, b, c := "google/gemini-2.5-pro", "openrouter/google/gemini-2.5-pro", "openrouter/moonshotai/kimi-k2.5";
    assert a[..0] == b[..0] && a[0] < b[0];
    assert b[..11] == c[..11] && b[11] < c[11];
    assert a[..0] == c[..0] && a[0] < c[0];
    assert |{a, b, c}| == 3 by {
      assert a != b && b != c && a != c by { assert a[0] != b[0] && b[11] != c[11] && a[0] != c[0]; }
    }
    [a, b, c]
  }

  const Separator := "\n  - "

  const Heading := "Available models:"
  const Footer := "\n\nFormat: 'provider/model-name'"

  /** The message `validate_llm_model` raises `ValueError` with, listing `models`. */
  function MessageListing(llmModel: string, models: seq<string>): string
  {
    MessageHead(llmModel) + Heading + (Separator + Join(Separator, models) + Footer)
  }

  function MessageHead(llmModel: string): string
  {
    "Invalid llm_model: '" + llmModel + "'\n\n"
  }

  function InvalidModelMessage(llmModel: string): string
  {
    MessageListing(llmModel, SortedModels())
  }

  /** `validate_llm_model`: None when the model is available, otherwise the error. */
  function ValidateLlmModel(llmModel: string): (err: Option<string>)
    ensures err.None? <==> llmModel in AvailableLlmModels
    ensures err.Some? ==> err.value == InvalidModelMessage(llmModel)
  {
    if llmModel in AvailableLlmModels then None else Some(InvalidModelMessage(llmModel))
  }

  /** `RunnerConfig`. */
  datatype RunnerConfig = RunnerConfig(
    llmModel: string,
    maxFixAttempts: int,
    outputDir: string,
    resume: bool,
    planOnly: bool,
    executeOnly: bool,
    evaluateOnly: bool)

  /** Building a `RunnerConfig`: `__post_init__` validates the model name and raises,
      so no configuration with an unknown model exists. */
  function NewRunnerConfig(llmModel: string, maxFixAttempts: int, outputDir: string, resume: bool,
                           planOnly: bool, executeOnly: bool, evaluateOnly: bool): (r: Result<RunnerConfig, string>)
    ensures r.Ok? <==> llmModel in AvailableLlmModels
    ensures r.Ok? ==> r.value == RunnerConfig(llmModel, maxFixAttempts, outputDir, resume, planOnly, executeOnly, evaluateOnly)
    ensures r.Err? ==> r.error == InvalidModelMessage(llmModel)
  {
    match ValidateLlmModel(llmModel)
    case None => Ok(RunnerConfig(llmModel, maxFixAttempts, outputDir, resume, planOnly, executeOnly, evaluateOnly))
    case Some(msg) => Err(msg)
  }

  /** `RunnerConfig()` with every default. */
  function DefaultConfig(): Result<RunnerConfig, string>
  {
    NewRunnerConfig(DefaultLlmModel, 3, "output", false, false, false, false)
  }

  /** The defaults make a valid configuration. */
  lemma DefaultConfigValid()
    ensures DefaultConfig().Ok?
    ensures DefaultConfig().value.llmModel in AvailableLlmModels
    ensures DefaultConfig().value.maxFixAttempts == 3
  {
  }

  /** Every available model has the form `provider/model-name`. */
  lemma ModelsHaveProvider(m: string)
    requires m in AvailableLlmModels
    ensures exists k :: 0 < k < |m| - 1 && m[k] == '/'
  {
    if m == "google/gemini-2.5-pro" {
      assert m[6] == '/';
    } else {
      assert m[10] == '/';
    }
  }

  /** An occurrence in x is an occurrence in `a + x + b`. */
  lemma ContainsWithin(a: string, x: string, b: string, s: string)
    requires Contains(x, s)
    ensures Contains(a + x + b, s)
  {
    ContainsIff(x, s);
    var k: nat :| OccursAt(x, s, k);
    assert (a + x + b)[|a| + k..|a| + k + |s|] == x[k..k + |s|];
    assert OccursAt(a + x + b, s, |a| + k);
    ContainsIff(a + x + b, s);
  }

  /** s occurs in itself. */
  lemma ContainsSelf(s: string)
    ensures Contains(s, s)
  {
    assert OccursAt(s, s, 0);
    ContainsIff(s, s);
  }

  /** Each part of a join occurs in it. */
  lemma {:induction false} JoinContainsPart(sep: string, parts: seq<string>, i: nat)
    requires i < |parts|
    ensures Contains(Join(sep, parts), parts[i])
  {
    if |parts| == 1 {
      ContainsSelf(parts[0]);
    } else if i == 0 {
      ContainsSelf(parts[0]);
      ContainsWithin("", parts[0], sep + Join(sep, parts[1..]), parts[0]);
      assert "" + parts[0] + (sep + Join(sep, parts[1..])) == Join(sep, parts);
    } else {
      JoinContainsPart(sep, parts[1..], i - 1);
      ContainsWithin(parts[0] + sep, Join(sep, parts[1..]), "", parts[i]);
      assert parts[0] + sep + Join(sep, parts[1..]) + "" == Join(sep, parts);
    }
  }

  /** The error names the rejected model first. */
  lemma MessageNamesModel(llmModel: string, models: seq<string>)
    ensures StartsWith(MessageListing(llmModel, models), "Invalid llm_model: '" + llmModel + "'")
  {
    var head := "Invalid llm_model: '" + llmModel + "'";
    var rest := "\n\n" + Heading + (Separator + Join(Separator, models) + Footer);
    assert MessageListing(llmModel, models) == head + rest;
    assert (head + rest)[..|head|] == head;
  }

  /** The error then has its heading. */
  lemma MessageHasHeading(llmModel: string, models: seq<string>)
    ensures Contains(MessageListing(llmModel, models), Heading)
  {
    ContainsSelf(Heading);
    ContainsWithin(MessageHead(llmModel), Heading, Separator + Join(Separator, models) + Footer, Heading);
  }

  /** The error lists every model it is given. */
  lemma MessageListsModels(llmModel: string, models: seq<string>, i: nat)
    requires i < |models|
    ensures Contains(MessageListing(llmModel, models), models[i])
  {
    JoinContainsPart(Separator, models, i);
    ContainsInFourth(MessageHead(llmModel), Heading, Separator, Join(Separator, models), Footer, models[i]);
  }

  /** An occurrence in d is an occurrence in `a + b + (c + d + e)`. */
  lemma ContainsInFourth(a: string, b: string, c: string, d: string, e: string, s: string)
    requires Contains(d, s)
    ensures Contains(a + b + (c + d + e), s)
  {
    ContainsWithin(a + b + c, d, e, s);
    assert a + b + (c + d + e) == a + b + c + d + e;
  }

  /** The rejection of an unknown model names it and lists every available model. */
  lemma InvalidModelMessageContents(llmModel: string, m: string)
    requires m in AvailableLlmModels
    ensures StartsWith(InvalidModelMessage(llmModel), "Invalid llm_model: '" + llmModel + "'")
    ensures Contains(InvalidModelMessage(llmModel), Heading)
    ensures Contains(InvalidModelMessage(llmModel), m)
  {
    var models := SortedModels();
    var i :| 0 <= i < |models| && models[i] == m;
    MessageNamesModel(llmModel, models);
    MessageHasHeading(llmModel, models);
    MessageListsModels(llmModel, models, i);
  }
}
