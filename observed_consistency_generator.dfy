/** tlm/components/completions/observed_consistency_completion_generator.py:
    the stage that samples `count` further answers to the user prompt, the
    consistency answers the reference answers are compared against. */
module ObservedConsistencyCompletionGenerator {
  import opened Wrappers
  import opened Json
  import opened Completions
  import opened PromptUtils
  import opened ResponseFormat
  import opened Components
  import opened Stages

  /** The generator's fields. The constructor stores `temperature`, but
      `execute` never passes it on: requests use generate_completion's
      default temperature. */
  datatype Generator = Generator(
    count: nat,
    params: map<string, Json>,
    temperature: real,
    template: TemplateRef,
    maxExplanationWords: int)

  /** ObservedConsistencyCompletionGenerator.__init__: a negative count
      raises, zero is allowed; a response format is wrapped to ask for an
      explanation (`topLogprobs` is the configured TOP_LOGPROBS), and the
      template then extracts the answer from it. */
  method NewGenerator(params: map<string, Json>, count: int, temperature: real, effort: string,
                      constrainOutputs: Option<seq<string>>, maxExplanationWords: int,
                      topLogprobs: int) returns (r: Result<Generator>)
    ensures count < 0 ==> r == Err("ValueError: count must be non-negative")
    ensures r.Err? <==> count < 0 || ("response_format" in params && AddExplanationField(params["response_format"]).Err?)
    ensures r.Ok? ==> r.value.count == count && r.value.temperature == temperature
    ensures r.Ok? ==> r.value.template == ObservedConsistencyTemplate(effort, constrainOutputs, "response_format" in params)
    ensures r.Ok? && "response_format" !in params ==> r.value.params == params
    ensures r.Ok? && "response_format" in params ==>
      r.value.params.Keys == params.Keys + {"logprobs", "top_logprobs"}
      && r.value.params["response_format"] == AddExplanationField(params["response_format"]).value
      && r.value.params["logprobs"] == JBool(true)
  {
    if count < 0 {
      return Err("ValueError: count must be non-negative");
    }
    var modified := AddExplanationToResponseFormat(params, topLogprobs);
    if modified.Err? {
      return Err(modified.error);
    }
    var completionParams := params;
    if modified.value.Some? {
      completionParams := modified.value.value;
    }
    var template := ObservedConsistencyTemplate(effort, constrainOutputs, modified.value.Some?);
    r := Ok(Generator(count, completionParams, temperature, template, maxExplanationWords));
  }

  /** The `count` identical requests for the user prompt. */
  function Requests(g: Generator, prompt: Json): (rs: seq<Request>)
    ensures |rs| == g.count
  {
    seq(g.count, _ => Request(g.template, Some(g.params),
      map["question" := prompt, "max_explanation_words" := JNum(g.maxExplanationWords as real)], None, None))
  }

  /** The answers recorded for the gathered results. */
  function Answers(outcomes: seq<Outcome>): (answers: seq<Json>)
  {
    seq(|outcomes|, i requires 0 <= i < |outcomes| => AnswerOrNone(outcomes[i]))
  }

  /** The loop over the gathered results: one answer per result, None for a
      failure. */
  method CollectAnswers(outcomes: seq<Outcome>) returns (answers: seq<Json>)
    ensures |answers| == |outcomes|
    ensures forall i :: 0 <= i < |outcomes| && outcomes[i].Failure? ==> answers[i] == JNull
    ensures forall i :: 0 <= i < |outcomes| && outcomes[i].Success? ==> answers[i] == AnswerOf(outcomes[i].completion)
  {
    answers := [];
    for i := 0 to |outcomes|
      invariant |answers| == i
      invariant forall k :: 0 <= k < i && outcomes[k].Failure? ==> answers[k] == JNull
      invariant forall k :: 0 <= k < i && outcomes[k].Success? ==> answers[k] == AnswerOf(outcomes[k].completion)
    {
      if outcomes[i].Success? {
        var c := outcomes[i].completion;
        answers := answers + [AnswerOf(c)];
      } else {
        answers := answers + [JNull];
      }
    }
  }

  /** ObservedConsistencyCompletionGenerator.execute. */
  function Execute(g: Generator, model: Model, results: map<string, Value>): Result<seq<(string, Value)>>
  {
    if g.count == 0 then Ok([("consistency_answers", VJsons([])), ("consistency_completions", VOutcomes([]))])
    else
      var prompt :- UserPrompt(g.params);
      var outcomes :- GatherCalls(model, Requests(g, prompt));
      Ok([("consistency_answers", VJsons(Answers(outcomes))), ("consistency_completions", VOutcomes(outcomes))])
  }

  /** With count 0 the stage writes two empty lists without reading the
      prompt or calling the model. Otherwise it raises when the prompt is
      missing or a call raises, and else writes exactly the two keys: the
      `count` results in order, and one answer per result, None for each
      failure. */
  lemma ExecuteSpec(g: Generator, model: Model, results: map<string, Value>)
    ensures g.count == 0 ==> forall m: Model, p: map<string, Json> ::
      Execute(g.(params := p), m, results) == Ok([("consistency_answers", VJsons([])), ("consistency_completions", VOutcomes([]))])
    ensures g.count > 0 ==>
      (Execute(g, model, results).Ok? <==>
        UserPrompt(g.params).Ok? && GatherCalls(model, Requests(g, UserPrompt(g.params).value)).Ok?)
    ensures var r := Execute(g, model, results);
      r.Ok? ==>
        WrittenKeys(r.value) == ["consistency_answers", "consistency_completions"]
        && r.value[0].1.VJsons? && r.value[1].1.VOutcomes?
        && |r.value[0].1.items| == |r.value[1].1.outcomes| == g.count
        && (forall i :: 0 <= i < g.count && r.value[1].1.outcomes[i].Failure? ==> r.value[0].1.items[i] == JNull)
        && (forall i :: 0 <= i < g.count && r.value[1].1.outcomes[i].Success? ==>
              r.value[0].1.items[i] == AnswerOf(r.value[1].1.outcomes[i].completion))
        && (g.count > 0 ==> forall i :: 0 <= i < g.count ==>
              r.value[1].1.outcomes[i] == model(Requests(g, UserPrompt(g.params).value)[i]).outcome)
  {
    var r := Execute(g, model, results);
    if r.Ok? {
      assert WrittenKeys(r.value) == ["consistency_answers", "consistency_completions"];
    }
  }
}
