/** tlm/components/completions/reference_completion_components.py: the two
    stages that supply the reference completions, either from a completion
    given as input (the formatter) or by asking the model `count` times (the
    generator). */
module ReferenceCompletionComponents {
  import opened Wrappers
  import opened Json
  import opened Types
  import opened Completions
  import opened PromptUtils
  import opened ResponseFormat
  import opened Components
  import opened Stages

  // ---------------------------------------------------------------------
  // ReferenceCompletionFormatter

  /** The formatter's fields: the completion parameters, the completion
      built from the input and its answer. */
  datatype Formatter = Formatter(params: map<string, Json>, completion: CompletionData, answer: Json)

  /** ReferenceCompletionFormatter.__init__: the input is read as a
      completion dictionary (which raises when it is malformed), and its
      answer is the completion's ANSWER field. */
  function NewFormatter(params: map<string, Json>, responseInput: Json, parseFloat: string -> Option<real>): Result<Formatter>
  {
    var c :- FromCompletionDictData(responseInput, parseFloat);
    Ok(Formatter(params, c, c.responseFields[Answer.Key()]))
  }

  /** ReferenceCompletionFormatter.execute: the user prompt, the one
      reference completion and its answer. */
  function FormatterExecute(f: Formatter, results: map<string, Value>): Result<seq<(string, Value)>>
  {
    var prompt :- UserPrompt(f.params);
    Ok([("prompt", VJson(prompt)), ("reference_completions", VCompletions([f.completion])),
        ("reference_answers", VJsons([f.answer]))])
  }

  /** A formatter exists exactly when the input is a well-formed completion
      dictionary. Its stage writes the three keys, whatever the context
      holds, as soon as the user prompt can be found; it records a single
      reference completion, and the single reference answer is that
      completion's answer field, the stripped message content. */
  lemma FormatterSpec(params: map<string, Json>, responseInput: Json, parseFloat: string -> Option<real>, results: map<string, Value>)
    ensures NewFormatter(params, responseInput, parseFloat).Ok? <==> FromCompletionDictData(responseInput, parseFloat).Ok?
    ensures NewFormatter(params, responseInput, parseFloat).Ok? ==>
      var f := NewFormatter(params, responseInput, parseFloat).value;
      var r := FormatterExecute(f, results);
      (r.Ok? <==> UserPrompt(params).Ok?)
      && (r.Ok? ==>
        WrittenKeys(r.value) == ["prompt", "reference_completions", "reference_answers"]
        && r.value[0].1 == VJson(UserPrompt(params).value)
        && r.value[1].1 == VCompletions([f.completion])
        && r.value[2].1 == VJsons([f.completion.responseFields[Answer.Key()]])
        && f.completion.responseFields[Answer.Key()] == JStr(f.completion.message))
  {
    if NewFormatter(params, responseInput, parseFloat).Ok? {
      var f := NewFormatter(params, responseInput, parseFloat).value;
      var r := FormatterExecute(f, results);
      if r.Ok? {
        assert WrittenKeys(r.value) == ["prompt", "reference_completions", "reference_answers"];
      }
    }
  }

  // ---------------------------------------------------------------------
  // ReferenceCompletionGenerator

  /** The generator's fields. `template` stands for the
      ReferenceCompletionTemplate the constructor creates. */
  datatype Generator = Generator(
    count: nat,
    minCount: int,
    params: map<string, Json>,
    alternateTemperature: Option<real>,
    template: TemplateRef,
    maxExplanationWords: int)

  function Min(a: int, b: int): int {
    if a <= b then a else b
  }

  /** ReferenceCompletionGenerator.__init__: a count that is not positive
      raises; the minimum is capped at the count; a response format is
      wrapped to ask for an explanation (`topLogprobs` is the configured
      TOP_LOGPROBS), and the template then extracts the answer from it.
      `maxExplanationWords` is the reasoning effort's entry of
      REASONING_EFFORT_TO_MAX_EXPLANATION_WORDS. */
  method NewGenerator(count: int, minCount: int, params: map<string, Json>, alternateTemperature: Option<real>,
                      effort: string, constrainOutputs: Option<seq<string>>, maxExplanationWords: int,
                      topLogprobs: int) returns (r: Result<Generator>)
    ensures count <= 0 ==> r == Err("ValueError: count must be positive")
    ensures r.Err? <==> count <= 0 || ("response_format" in params && AddExplanationField(params["response_format"]).Err?)
    ensures r.Ok? ==> r.value.count == count && r.value.minCount == Min(count, minCount) && r.value.minCount <= count
    ensures r.Ok? ==> r.value.alternateTemperature == alternateTemperature && r.value.maxExplanationWords == maxExplanationWords
    ensures r.Ok? ==> r.value.template == ReferenceTemplate(effort, constrainOutputs, "response_format" in params)
    ensures r.Ok? && "response_format" !in params ==> r.value.params == params
    ensures r.Ok? && "response_format" in params ==>
      r.value.params.Keys == params.Keys + {"logprobs", "top_logprobs"}
      && r.value.params["response_format"] == AddExplanationField(params["response_format"]).value
      && r.value.params["logprobs"] == JBool(true)
  {
    if count <= 0 {
      return Err("ValueError: count must be positive");
    }
    var modified := AddExplanationToResponseFormat(params, topLogprobs);
    if modified.Err? {
      return Err(modified.error);
    }
    var completionParams := params;
    if modified.value.Some? {
      completionParams := modified.value.value;
    }
    var template := ReferenceTemplate(effort, constrainOutputs, modified.value.Some?);
    r := Ok(Generator(count, Min(count, minCount), completionParams, alternateTemperature, template, maxExplanationWords));
  }

  /** Request i is sampled at temperature 0.0 when it is the first, and at
      the alternate temperature (0.0 when unset) otherwise. */
  function Temperature(g: Generator, i: nat): real
  {
    if i == 0 then 0.0
    else if g.alternateTemperature.Some? then g.alternateTemperature.value
    else 0.0
  }

  /** The `count` requests, in order. */
  function Requests(g: Generator, prompt: Json): (rs: seq<Request>)
    ensures |rs| == g.count
  {
    seq(g.count, i requires 0 <= i < g.count => Request(g.template, Some(g.params),
      map["prompt" := prompt, "max_explanation_words" := JNum(g.maxExplanationWords as real)],
      Some(Temperature(g, i)), None))
  }

  /** The successful completions, in order. */
  function Successes(outcomes: seq<Outcome>): seq<CompletionData>
  {
    if outcomes == [] then []
    else
      var last := outcomes[|outcomes| - 1];
      Successes(outcomes[..|outcomes| - 1]) + (if last.Success? then [last.completion] else [])
  }

  /** The failures, in order. */
  function Failures(outcomes: seq<Outcome>): seq<CompletionFailure>
  {
    if outcomes == [] then []
    else
      var last := outcomes[|outcomes| - 1];
      Failures(outcomes[..|outcomes| - 1]) + (if last.Failure? then [last.failure] else [])
  }

  /** The answers of a list of completions. */
  function Answers(cs: seq<CompletionData>): (answers: seq<Json>)
    ensures |answers| == |cs|
    ensures forall i :: 0 <= i < |cs| ==> answers[i] == AnswerOf(cs[i])
  {
    seq(|cs|, i requires 0 <= i < |cs| => AnswerOf(cs[i]))
  }

  /** The split keeps order: it distributes over concatenation, so each
      part lists its outcomes in input order. */
  lemma {:induction false} SplitAppend(a: seq<Outcome>, b: seq<Outcome>)
    ensures Successes(a + b) == Successes(a) + Successes(b)
    ensures Failures(a + b) == Failures(a) + Failures(b)
    decreases |b|
  {
    if b != [] {
      var b' := b[..|b| - 1];
      assert (a + b)[..|a + b| - 1] == a + b';
      SplitAppend(a, b');
    } else {
      assert a + b == a;
    }
  }

  /** The completions are exactly those of the successful outcomes, and
      the failures those of the failed ones. */
  lemma {:induction false} SplitMembers(outcomes: seq<Outcome>)
    ensures forall c :: c in Successes(outcomes) <==> Success(c) in outcomes
    ensures forall f :: f in Failures(outcomes) <==> Failure(f) in outcomes
  {
    if outcomes != [] {
      var init := outcomes[..|outcomes| - 1];
      SplitMembers(init);
      assert outcomes == init + [outcomes[|outcomes| - 1]];
    }
  }

  /** Every outcome is in exactly one of the two parts. */
  lemma {:induction false} SplitSizes(outcomes: seq<Outcome>)
    ensures |Successes(outcomes)| + |Failures(outcomes)| == |outcomes|
  {
    if outcomes != [] {
      SplitSizes(outcomes[..|outcomes| - 1]);
    }
  }

  /** The loop over the gathered results: a success contributes its
      answer, a failure is set aside. */
  method SplitOutcomes(outcomes: seq<Outcome>) returns (answers: seq<Json>, failures: seq<CompletionFailure>)
    ensures answers == Answers(Successes(outcomes))
    ensures failures == Failures(outcomes)
  {
    answers := [];
    failures := [];
    for i := 0 to |outcomes|
      invariant answers == Answers(Successes(outcomes[..i]))
      invariant failures == Failures(outcomes[..i])
    {
      assert outcomes[..i + 1][..i] == outcomes[..i];
      match outcomes[i] {
        case Success(c) =>
          answers := answers + [AnswerOf(c)];
        case Failure(f) =>
          failures := failures + [f];
      }
    }
    assert outcomes[..|outcomes|] == outcomes;
  }

  /** ReferenceCompletionGenerator.execute. */
  function GeneratorExecute(g: Generator, model: Model, results: map<string, Value>): Result<seq<(string, Value)>>
  {
    var prompt :- UserPrompt(g.params);
    var outcomes :- GatherCalls(model, Requests(g, prompt));
    var completions := Successes(outcomes);
    if |completions| < g.minCount then Err("Not enough reference completions")
    else Ok([("prompt", VJson(prompt)), ("reference_answers", VJsons(Answers(completions))),
             ("reference_completions", VCompletions(completions)), ("reference_failures", VFailures(Failures(outcomes)))])
  }

  /** The generator issues `count` requests for the user prompt, the first
      at temperature 0.0 and the others at the alternate temperature or 0.0.
      It raises when the prompt is missing, when a call raises, or when
      fewer than `minCount` completions succeed; otherwise it writes the four
      keys, with one answer per successful completion, in order, and every
      gathered result among the completions or the failures. */
  lemma GeneratorSpec(g: Generator, model: Model, results: map<string, Value>)
    ensures UserPrompt(g.params).Ok? ==>
      var rs := Requests(g, UserPrompt(g.params).value);
      |rs| == g.count
      && (forall i :: 0 <= i < g.count ==> rs[i].kwargs["prompt"] == UserPrompt(g.params).value)
      && (g.count > 0 ==> rs[0].temperature == Some(0.0))
      && (forall i :: 0 < i < g.count ==>
            rs[i].temperature == Some(if g.alternateTemperature.Some? then g.alternateTemperature.value else 0.0))
    ensures var r := GeneratorExecute(g, model, results);
      r.Ok? <==> (UserPrompt(g.params).Ok?
        && GatherCalls(model, Requests(g, UserPrompt(g.params).value)).Ok?
        && |Successes(GatherCalls(model, Requests(g, UserPrompt(g.params).value)).value)| >= g.minCount)
    ensures var r := GeneratorExecute(g, model, results);
      r.Ok? ==>
        WrittenKeys(r.value) == ["prompt", "reference_answers", "reference_completions", "reference_failures"]
        && r.value[1].1.VJsons? && r.value[2].1.VCompletions? && r.value[3].1.VFailures?
        && |r.value[1].1.items| == |r.value[2].1.completions| >= g.minCount
        && (forall i :: 0 <= i < |r.value[1].1.items| ==> r.value[1].1.items[i] == AnswerOf(r.value[2].1.completions[i]))
        && |r.value[2].1.completions| + |r.value[3].1.failures| == g.count
    ensures var r := GeneratorExecute(g, model, results);
      r.Ok? ==>
        var prompt := UserPrompt(g.params).value;
        var rs := Requests(g, prompt);
        var o := GatherCalls(model, rs).value;
        r.value[0].1 == VJson(prompt)
        && |o| == g.count && (forall i :: 0 <= i < g.count ==> o[i] == model(rs[i]).outcome)
        && r.value[2].1.completions == Successes(o) && r.value[3].1.failures == Failures(o)
  {
    GeneratorWrites(g, model, results);
  }

  /** What a successful execute writes, in terms of the gathered outcomes. */
  lemma GeneratorWrites(g: Generator, model: Model, results: map<string, Value>)
    ensures var r := GeneratorExecute(g, model, results);
      r.Ok? ==>
        WrittenKeys(r.value) == ["prompt", "reference_answers", "reference_completions", "reference_failures"]
        && r.value[1].1.VJsons? && r.value[2].1.VCompletions? && r.value[3].1.VFailures?
        && |r.value[1].1.items| == |r.value[2].1.completions| >= g.minCount
        && (forall i :: 0 <= i < |r.value[1].1.items| ==> r.value[1].1.items[i] == AnswerOf(r.value[2].1.completions[i]))
        && |r.value[2].1.completions| + |r.value[3].1.failures| == g.count
    ensures var r := GeneratorExecute(g, model, results);
      r.Ok? ==>
        var prompt := UserPrompt(g.params).value;
        var rs := Requests(g, prompt);
        var o := GatherCalls(model, rs).value;
        r.value[0].1 == VJson(prompt)
        && |o| == g.count && (forall i :: 0 <= i < g.count ==> o[i] == model(rs[i]).outcome)
        && r.value[2].1.completions == Successes(o) && r.value[3].1.failures == Failures(o)
  {
    var r := GeneratorExecute(g, model, results);
    if r.Ok? {
      var prompt := UserPrompt(g.params).value;
      var outcomes := GatherCalls(model, Requests(g, prompt)).value;
      var completions := Successes(outcomes);
      assert r.value == [("prompt", VJson(prompt)), ("reference_answers", VJsons(Answers(completions))),
                         ("reference_completions", VCompletions(completions)),
                         ("reference_failures", VFailures(Failures(outcomes)))];
      SplitSizes(outcomes);
      assert WrittenKeys(r.value) == ["prompt", "reference_answers", "reference_completions", "reference_failures"];
    }
  }
}
