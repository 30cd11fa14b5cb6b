/** tlm/components/base.py: the execution context shared between stages and
    the stage base class with its dependency counter, ready flag and blocking
    list. The abstract `execute` of a stage is the function `stage`, from the
    stage's current results to the keys it adds (or the exception it
    raises); the asyncio lock and event are replaced by plain fields. */
module Components {
  import opened Wrappers
  import opened Json
  import opened Types
  import opened Completions
  import opened MathUtils

  /** The values the stages store in an execution context. Arrays of
      scores, perplexities and None placeholders are all `VScores`. */
  datatype Value =
    | VNone
    | VBool(b: bool)
    | VJson(j: Json)
    | VJsons(items: seq<Json>)
    | VScores(scores: seq<Score>)
    | VCompletions(completions: seq<CompletionData>)
    | VFailures(failures: seq<CompletionFailure>)
    | VOutcomes(outcomes: seq<Outcome>)
    | VNested(rows: seq<seq<Outcome>>)
    | VFieldMetadata(fields: map<string, FieldMetadata>)

  /** What `execute` does: the (key, value) pairs it adds in order, or the
      message of the exception it raises. */
  type Stage = map<string, Value> -> Result<seq<(string, Value)>>

  /** The results after adding `writes` in order: a later write to a key
      replaces an earlier one. */
  function ApplyWrites(results: map<string, Value>, writes: seq<(string, Value)>): map<string, Value>
  {
    if writes == [] then results
    else
      var last := writes[|writes| - 1];
      ApplyWrites(results, writes[..|writes| - 1])[last.0 := last.1]
  }

  /** The last value written to `key`, if any. */
  function LastWrite(writes: seq<(string, Value)>, key: string): Option<Value>
  {
    if writes == [] then None
    else if writes[|writes| - 1].0 == key then Some(writes[|writes| - 1].1)
    else LastWrite(writes[..|writes| - 1], key)
  }

  /** After the writes, a key holds its last written value, or its old
      value when it was not written; no other key appears. */
  lemma {:induction false} ApplyWritesAt(results: map<string, Value>, writes: seq<(string, Value)>, key: string)
    ensures key in ApplyWrites(results, writes) <==> key in results || LastWrite(writes, key).Some?
    ensures LastWrite(writes, key).Some? ==> ApplyWrites(results, writes)[key] == LastWrite(writes, key).value
    ensures LastWrite(writes, key).None? && key in results ==> ApplyWrites(results, writes)[key] == results[key]
  {
    if writes != [] {
      ApplyWritesAt(results, writes[..|writes| - 1], key);
    }
  }

  /** ExecutionContext: a dictionary of named results. */
  class ExecutionContext {
    var results: map<string, Value>

    constructor()
      ensures results == map[]
    {
      results := map[];
    }

    /** add: stores the value, overwriting an existing one (the source only
        logs a warning then). */
    method Add(key: string, value: Value)
      modifies this
      ensures results == old(results)[key := value]
    {
      results := results[key := value];
    }

    /** get: the stored value, or `default` for an absent key. */
    function Get(key: string, default: Value): (v: Value)
      reads this
      ensures key in results ==> v == results[key]
      ensures key !in results ==> v == default
    {
      if key in results then results[key] else default
    }
  }

  /** How many times `x` occurs in `xs`. */
  function Count<T(==)>(xs: seq<T>, x: T): nat
  {
    if xs == [] then 0
    else Count(xs[..|xs| - 1], x) + (if xs[|xs| - 1] == x then 1 else 0)
  }

  /** `x` repeated n times. */
  function Repeat<T>(x: T, n: nat): (r: seq<T>)
    ensures |r| == n && forall i :: 0 <= i < n ==> r[i] == x
  {
    seq(n, _ => x)
  }

  /** Component: the stage base class. */
  class Component {
    const dependsOn: seq<Component>
    var blocking: seq<Component>
    const context: ExecutionContext
    var completed: nat
    var ready: bool
    const stage: Stage

    /** The constructor: no dependencies (None or []) makes the component
        ready at once; it is appended to the blocking list of each
        dependency, once per occurrence in `dependsOn`. */
    constructor(dependsOn: seq<Component>, stage: Stage)
      modifies set d | d in dependsOn
      ensures this.dependsOn == dependsOn && this.stage == stage
      ensures blocking == [] && completed == 0 && ready == (dependsOn == [])
      ensures fresh(context) && context.results == map[]
      ensures forall d :: d in dependsOn ==> d.blocking == old(d.blocking) + Repeat(this, Count(dependsOn, d))
      ensures forall d :: d in dependsOn ==> d.completed == old(d.completed) && d.ready == old(d.ready)
    {
      this.dependsOn := dependsOn;
      this.stage := stage;
      blocking := [];
      context := new ExecutionContext();
      completed := 0;
      ready := dependsOn == [];
      new;
      for i := 0 to |dependsOn|
        invariant forall d :: d in dependsOn ==> d.blocking == old(d.blocking) + Repeat(this, Count(dependsOn[..i], d))
        invariant forall d :: d in dependsOn ==> d.completed == old(d.completed) && d.ready == old(d.ready)
        invariant blocking == [] && completed == 0 && ready == (dependsOn == []) && context.results == map[]
      {
        assert dependsOn[..i + 1][..i] == dependsOn[..i];
        dependsOn[i].blocking := dependsOn[i].blocking + [this];
      }
      assert dependsOn[..|dependsOn|] == dependsOn;
    }

    /** merge_context: the dependency's results are added, its values
        winning on a shared key. */
    method MergeContext(dependencyContext: ExecutionContext)
      modifies context
      ensures context.results == old(context.results) + old(dependencyContext.results)
      ensures context.results.Keys == old(context.results).Keys + old(dependencyContext.results).Keys
    {
      context.results := context.results + dependencyContext.results;
    }

    /** notify_completion: a component this one does not depend on changes
        nothing; a dependency advances the counter by one, sets the ready
        flag once the counter reaches the number of dependencies (it is
        never cleared) and merges the dependency's results. */
    method NotifyCompletion(dependency: Component)
      modifies this, context
      ensures dependency !in dependsOn ==>
        completed == old(completed) && ready == old(ready) && context.results == old(context.results)
      ensures dependency in dependsOn ==> completed == old(completed) + 1
      ensures dependency in dependsOn ==> ready == (old(ready) || completed >= |dependsOn|)
      ensures dependency in dependsOn ==> context.results == old(context.results) + old(dependency.context.results)
      ensures blocking == old(blocking)
    {
      if dependency in dependsOn {
        completed := completed + 1;
        if completed >= |dependsOn| {
          ready := true;
        }
        MergeContext(dependency.context);
      }
    }

    /** execute: the stage's writes are added to the context in order. When
        the stage raises, nothing is written. */
    method Execute() returns (st: Status)
      modifies context
      ensures st.Fail? <==> stage(old(context.results)).Err?
      ensures st.Fail? ==> stage(old(context.results)) == Err(st.error)
      ensures st.Done? ==> context.results == ApplyWrites(old(context.results), stage(old(context.results)).value)
      ensures st.Fail? ==> context.results == old(context.results)
    {
      var outcome := stage(context.results);
      if outcome.Err? {
        return Fail(outcome.error);
      }
      var writes := outcome.value;
      for i := 0 to |writes|
        invariant context.results == ApplyWrites(old(context.results), writes[..i])
      {
        assert writes[..i + 1][..i] == writes[..i];
        context.Add(writes[i].0, writes[i].1);
      }
      assert writes[..|writes|] == writes;
      st := Done;
    }
  }
}
