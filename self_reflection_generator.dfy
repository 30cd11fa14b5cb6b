/** tlm/components/completions/self_reflection_completion_generator.py: the
    stage that asks the model to reflect on every reference answer with every
    reflection template of the workflow, and arranges the results with one
    row per reference answer. */
module SelfReflectionCompletionGenerator {
  import opened Wrappers
  import opened Json
  import opened Types
  import opened Completions
  import opened MathUtils
  import opened Components
  import opened Stages

  /** SELF_REFLECTION_TEMPLATES_BY_WORKFLOW
      (tlm/templates/reflection_completion_templates.py); workflows without
      an entry get the empty list. */
  function TemplatesByWorkflow(w: WorkflowType): seq<Reflection>
  {
    match w
    case QA => [Certainty, KnowledgeGap, Argument, BinaryCorrectness, Trustworthiness, Correctness]
    case Classification => [ClassificationCorrectness, ClassificationScoring]
    case Rag => [RagCertainty, RagArgument, RagIssues]
    case StructuredOutputScoring => [Certainty, KnowledgeGap, Argument, SoPerScoreCorrectness, SoPerScoreCertainty]
    case _ => []
  }

  function Min(a: int, b: int): int {
    if a <= b then a else b
  }

  /** The constructor's template selection: binary classification without
      an entry of its own falls back to the classification templates, and
      the list is cut to the first `numCompletions` only when
      `numCompletions > 1`. */
  function SelectTemplates(w: WorkflowType, numCompletions: int): seq<Reflection>
  {
    var table := TemplatesByWorkflow(w);
    var templates := if |table| == 0 && w == BinaryClassification then TemplatesByWorkflow(Classification) else table;
    if numCompletions > 1 then templates[..Min(numCompletions, |templates|)] else templates
  }

  /** The selection is a prefix of the workflow's templates (classification
      for binary classification); it keeps them all for 1, 0 or a negative
      count, and keeps min(n, available) of them for a count n > 1. */
  lemma SelectTemplatesSpec(w: WorkflowType, numCompletions: int)
    ensures var source := if w == BinaryClassification then TemplatesByWorkflow(Classification) else TemplatesByWorkflow(w);
      var chosen := SelectTemplates(w, numCompletions);
      (numCompletions <= 1 ==> chosen == source)
      && (numCompletions > 1 ==> |chosen| == Min(numCompletions, |source|) && chosen == source[..|chosen|])
    ensures w == DefaultWorkflow ==> SelectTemplates(w, numCompletions) == []
    ensures w == QA && numCompletions > 1 ==> |SelectTemplates(w, numCompletions)| == Min(numCompletions, 6)
  {
  }

  /** The generator's fields. */
  datatype Generator = Generator(prompt: string, effort: string, templates: seq<Reflection>, maxExplanationWords: int)

  /** SelfReflectionCompletionGenerator.__init__. `maxExplanationWords`
      is the reasoning effort's entry of
      REASONING_EFFORT_TO_MAX_EXPLANATION_WORDS. */
  function NewGenerator(prompt: string, effort: string, w: WorkflowType, numCompletions: int,
                        maxExplanationWords: int): Generator
  {
    Generator(prompt, effort, SelectTemplates(w, numCompletions), maxExplanationWords)
  }

  /** The request reflecting on `answer` with one template, at temperature
      0.0. */
  function ReflectionRequest(g: Generator, answer: Json, t: Reflection): Request
  {
    Request(ReflectionTemplate(t, g.effort), None,
      map["question" := JStr(g.prompt), "answer" := answer,
          "max_explanation_words" := JNum(g.maxExplanationWords as real)],
      Some(0.0), Some(answer))
  }

  /** One row of requests per answer, one request per template. */
  function RequestGrid(g: Generator, answers: seq<Json>): (grid: seq<seq<Request>>)
    ensures |grid| == |answers| && IsMatrix(grid, |g.templates|)
  {
    seq(|answers|, a requires 0 <= a < |answers| =>
      seq(|g.templates|, j requires 0 <= j < |g.templates| => ReflectionRequest(g, answers[a], g.templates[j])))
  }

  /** The loop that extends the task list: for each reference answer in
      turn, one request per template in template order. */
  method IssueRequests(g: Generator, answers: seq<Json>) returns (requests: seq<Request>)
    ensures requests == Flatten(RequestGrid(g, answers))
  {
    var grid := RequestGrid(g, answers);
    requests := [];
    for i := 0 to |answers|
      invariant requests == Flatten(grid[..i])
    {
      var row := seq(|g.templates|, j requires 0 <= j < |g.templates| => ReflectionRequest(g, answers[i], g.templates[j]));
      assert row == grid[i];
      FlattenSnoc(grid[..i], row);
      assert grid[..i + 1] == grid[..i] + [row];
      requests := requests + row;
    }
    assert grid[..|answers|] == grid;
  }

  /** Flatten of one more row appends that row. */
  lemma {:induction false} FlattenSnoc<T>(m: seq<seq<T>>, row: seq<T>)
    ensures Flatten(m + [row]) == Flatten(m) + row
  {
    if m == [] {
      assert [row][1..] == [];
    } else {
      assert (m + [row])[1..] == m[1..] + [row];
      FlattenSnoc(m[1..], row);
    }
  }

  /** `[flat[i : i + width] for i in range(0, len(flat), width)]`. */
  function Chunk<T>(flat: seq<T>, width: nat): seq<seq<T>>
    requires width > 0
    decreases |flat|
  {
    if flat == [] then []
    else
      var k := Min(width, |flat|);
      [flat[..k]] + Chunk(flat[k..], width)
  }

  /** Chunking a row-major flattening by the row width gives the rows back. */
  lemma {:induction false} ChunkFlatten<T>(m: seq<seq<T>>, width: nat)
    requires width > 0 && IsMatrix(m, width)
    ensures Chunk(Flatten(m), width) == m
  {
    if m != [] {
      var flat := Flatten(m);
      assert flat == m[0] + Flatten(m[1..]);
      assert flat[..width] == m[0];
      assert flat[width..] == Flatten(m[1..]);
      ChunkFlatten(m[1..], width);
    }
  }

  /** Calling the model on every request of a grid, row by row. */
  function OutcomeGrid(model: Model, grid: seq<seq<Request>>): (m: seq<seq<Outcome>>)
    requires forall a, j :: 0 <= a < |grid| && 0 <= j < |grid[a]| ==> model(grid[a][j]).Returned?
    ensures |m| == |grid| && forall a :: 0 <= a < |grid| ==> |m[a]| == |grid[a]|
    ensures forall a, j :: 0 <= a < |grid| && 0 <= j < |grid[a]| ==> m[a][j] == model(grid[a][j]).outcome
  {
    seq(|grid|, a requires 0 <= a < |grid| =>
      seq(|grid[a]|, j requires 0 <= j < |grid[a]| => model(grid[a][j]).outcome))
  }

  /** Gathering the flattened grid gives the flattened outcome grid. */
  lemma {:induction false} GatherFlatten(model: Model, grid: seq<seq<Request>>)
    requires forall a, j :: 0 <= a < |grid| && 0 <= j < |grid[a]| ==> model(grid[a][j]).Returned?
    ensures GatherCalls(model, Flatten(grid)).Ok?
    ensures GatherCalls(model, Flatten(grid)).value == Flatten(OutcomeGrid(model, grid))
  {
    if grid == [] {
    } else {
      GatherFlatten(model, grid[1..]);
      var flat := Flatten(grid);
      assert flat == grid[0] + Flatten(grid[1..]);
      forall k | 0 <= k < |flat|
        ensures model(flat[k]).Returned?
      {
        if k >= |grid[0]| {
          assert flat[k] == Flatten(grid[1..])[k - |grid[0]|];
          var rest := GatherCalls(model, Flatten(grid[1..]));
        }
      }
      var og := OutcomeGrid(model, grid);
      assert og[1..] == OutcomeGrid(model, grid[1..]);
      var lhs := GatherCalls(model, flat).value;
      var rhs := Flatten(og);
      assert rhs == og[0] + Flatten(og[1..]);
      forall k | 0 <= k < |flat|
        ensures lhs[k] == rhs[k]
      {
        if k >= |grid[0]| {
          assert flat[k] == Flatten(grid[1..])[k - |grid[0]|];
        }
      }
    }
  }

  /** Every cell of a matrix occurs in its flattening. */
  lemma {:induction false} FlattenHas<T>(m: seq<seq<T>>, a: nat, j: nat)
    requires a < |m| && j < |m[a]|
    ensures m[a][j] in Flatten(m)
  {
    assert Flatten(m) == m[0] + Flatten(m[1..]);
    if a > 0 {
      FlattenHas(m[1..], a - 1, j);
    }
  }

  /** SelfReflectionCompletionGenerator.execute. With no template the
      chunking `range` has step 0, which raises. */
  function Execute(g: Generator, model: Model, results: map<string, Value>): Result<seq<(string, Value)>>
  {
    var answers :- JsonsAt(results, "reference_answers");
    var outcomes :- GatherCalls(model, Flatten(RequestGrid(g, answers)));
    if |g.templates| == 0 then Err("ValueError: range() arg 3 must not be zero")
    else Ok([("self_reflection_completions", VNested(Chunk(outcomes, |g.templates|)))])
  }

  /** With at least one template and calls that return, the stage writes
      one row per reference answer and one column per template: entry
      (a, j) is the model's reflection on answer a with template j. With no
      template it raises. */
  lemma ExecuteSpec(g: Generator, model: Model, results: map<string, Value>)
    requires "reference_answers" in results && results["reference_answers"].VJsons?
    ensures |g.templates| == 0 ==> Execute(g, model, results).Err?
    ensures var answers := results["reference_answers"].items;
      |g.templates| > 0
      && (forall a, j :: 0 <= a < |answers| && 0 <= j < |g.templates| ==>
            model(ReflectionRequest(g, answers[a], g.templates[j])).Returned?)
      ==>
      var r := Execute(g, model, results);
      r.Ok? && WrittenKeys(r.value) == ["self_reflection_completions"] && r.value[0].1.VNested?
      && |r.value[0].1.rows| == |answers| && IsMatrix(r.value[0].1.rows, |g.templates|)
      && forall a, j :: 0 <= a < |answers| && 0 <= j < |g.templates| ==>
           r.value[0].1.rows[a][j] == model(ReflectionRequest(g, answers[a], g.templates[j])).outcome
  {
    var answers := results["reference_answers"].items;
    var grid := RequestGrid(g, answers);
    if |g.templates| > 0 && forall a, j :: 0 <= a < |answers| && 0 <= j < |g.templates| ==>
         model(ReflectionRequest(g, answers[a], g.templates[j])).Returned? {
      GatherFlatten(model, grid);
      var og := OutcomeGrid(model, grid);
      ChunkFlatten(og, |g.templates|);
      var r := Execute(g, model, results);
      assert r.value[0].1.rows == og;
      assert WrittenKeys(r.value) == ["self_reflection_completions"];
    }
  }

  /** A reflection call that raises makes the stage raise: the exception
      propagates out of `asyncio.gather`. */
  lemma ExecuteRaises(g: Generator, model: Model, results: map<string, Value>, a: nat, j: nat)
    requires "reference_answers" in results && results["reference_answers"].VJsons?
    requires a < |results["reference_answers"].items| && j < |g.templates|
    requires model(ReflectionRequest(g, results["reference_answers"].items[a], g.templates[j])).Raised?
    ensures Execute(g, model, results).Err?
  {
    var grid := RequestGrid(g, results["reference_answers"].items);
    FlattenHas(grid, a, j);
    var flat := Flatten(grid);
    var k :| 0 <= k < |flat| && flat[k] == grid[a][j];
  }
}
