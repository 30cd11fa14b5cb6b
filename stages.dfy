/** What the stages under tlm/components/scores and tlm/components/completions
    share: typed reads of execution-context values and the model call they
    issue. `generate_completion` (tlm/utils/completion_utils.py) is not part
    of this model: it is an oracle from a request to the result of the call,
    either an outcome or an exception. */
module Stages {
  import opened Wrappers
  import opened Json
  import opened Types
  import opened Completions
  import opened Components
  import opened LlmConsistency

  /** The self-reflection prompt templates, by class name. */
  datatype Reflection =
    | Certainty | KnowledgeGap | Argument | BinaryCorrectness | Trustworthiness | Correctness
    | RagCertainty | RagArgument | RagIssues
    | ClassificationCorrectness | ClassificationScoring
    | SoPerScoreCorrectness | SoPerScoreCertainty

  /** The prompt template of a request, with the arguments it was created
      from. The reasoning effort is kept by name (tlm/config/presets.py is
      not part of this model). */
  datatype TemplateRef =
    | ReferenceTemplate(effort: string, constrainOutputs: Option<seq<string>>, extractAnswer: bool)
    | ObservedConsistencyTemplate(effort: string, constrainOutputs: Option<seq<string>>, extractAnswer: bool)
    | ReflectionTemplate(reflection: Reflection, effort: string)

  /** The arguments of one `generate_completion` call. */
  datatype Request = Request(
    template: TemplateRef,
    params: Option<map<string, Json>>,
    kwargs: map<string, Json>,
    temperature: Option<real>,
    referenceAnswer: Option<Json>)

  /** A model call: the outcome it returns or the exception it raises. */
  type Model = Request -> Call

  /** The calls of `asyncio.gather` over one task per request, in order. */
  function Calls(model: Model, requests: seq<Request>): (calls: seq<Call>)
    ensures |calls| == |requests|
    ensures forall i :: 0 <= i < |requests| ==> calls[i] == model(requests[i])
  {
    seq(|requests|, i requires 0 <= i < |requests| => model(requests[i]))
  }

  /** `await asyncio.gather(...)`: the outcomes in request order, or the
      exception of a call that raised, which propagates. */
  function GatherCalls(model: Model, requests: seq<Request>): (r: Result<seq<Outcome>>)
    ensures r.Ok? <==> forall i :: 0 <= i < |requests| ==> model(requests[i]).Returned?
    ensures r.Ok? ==> |r.value| == |requests|
    ensures r.Ok? ==> forall i :: 0 <= i < |requests| ==> r.value[i] == model(requests[i]).outcome
  {
    var calls := Calls(model, requests);
    match FirstRaised(calls)
    case Some(message) => Err(message)
    case None => Ok(seq(|calls|, i requires 0 <= i < |calls| => calls[i].outcome))
  }

  // ---------------------------------------------------------------------
  // Reading the execution context

  function WrongType(key: string): string {
    "TypeError: the context value " + key + " is missing or has the wrong type"
  }

  /** A list of answers. */
  function JsonsAt(results: map<string, Value>, key: string): (r: Result<seq<Json>>)
    ensures r.Ok? <==> key in results && results[key].VJsons?
    ensures r.Ok? ==> r.value == results[key].items
  {
    if key in results && results[key].VJsons? then Ok(results[key].items) else Err(WrongType(key))
  }

  /** A list of `Completion | CompletionFailure`. */
  function OutcomesAt(results: map<string, Value>, key: string): (r: Result<seq<Outcome>>)
    ensures r.Ok? <==> key in results && results[key].VOutcomes?
    ensures r.Ok? ==> r.value == results[key].outcomes
  {
    if key in results && results[key].VOutcomes? then Ok(results[key].outcomes) else Err(WrongType(key))
  }

  /** A list of successful completions. */
  function CompletionsAt(results: map<string, Value>, key: string): (r: Result<seq<CompletionData>>)
    ensures r.Ok? <==> key in results && results[key].VCompletions?
    ensures r.Ok? ==> r.value == results[key].completions
  {
    if key in results && results[key].VCompletions? then Ok(results[key].completions) else Err(WrongType(key))
  }

  /** A list of lists of `Completion | CompletionFailure`. */
  function NestedAt(results: map<string, Value>, key: string): (r: Result<seq<seq<Outcome>>>)
    ensures r.Ok? <==> key in results && results[key].VNested?
    ensures r.Ok? ==> r.value == results[key].rows
  {
    if key in results && results[key].VNested? then Ok(results[key].rows) else Err(WrongType(key))
  }

  /** The keys of a list of writes, in order. */
  function WrittenKeys(writes: seq<(string, Value)>): (keys: seq<string>)
    ensures |keys| == |writes|
    ensures forall i :: 0 <= i < |writes| ==> keys[i] == writes[i].0
  {
    seq(|writes|, i requires 0 <= i < |writes| => writes[i].0)
  }

  /** The answer a completion generator records for an outcome: the answer
      of a success, None for a failure. */
  function AnswerOrNone(o: Outcome): (a: Json)
    ensures o.Failure? ==> a == JNull
    ensures o.Success? ==> a == AnswerOf(o.completion)
  {
    match o
    case Success(c) => AnswerOf(c)
    case Failure(_) => JNull
  }
}
