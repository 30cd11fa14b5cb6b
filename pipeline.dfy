/** tlm/pipeline/base.py: the inference pipeline. `_validate` checks that
    every dependency is registered and, by depth-first search, that the
    dependency graph has no cycle; `run` then executes every component once
    its dependencies have completed and unions their results. The asyncio
    tasks are replaced by a loop that repeatedly runs some ready component
    that has not run yet, which is one of the interleavings the event loop
    can produce. */
module Pipeline {
  import opened Wrappers
  import opened Components

  const UnregisteredDependency: string :=
    "Component dependency is not in the pipeline. All dependencies must be added to the pipeline."
  const CycleDetected: string := "Cycle detected in pipeline dependency graph"

  // ---------------------------------------------------------------------
  // The dependency graph

  /** The elements of a sequence, as a set. */
  function Elems<T>(s: seq<T>): set<T>
  {
    set x | x in s
  }

  /** No component occurs twice. */
  predicate Distinct<T(==)>(s: seq<T>)
  {
    forall i, j :: 0 <= i < j < |s| ==> s[i] != s[j]
  }

  /** Each component of p depends on the one after it. */
  ghost predicate IsPath(p: seq<Component>)
  {
    forall i :: 0 <= i < |p| - 1 ==> p[i + 1] in p[i].dependsOn
  }

  /** A path of at least one edge that returns to where it started. */
  ghost predicate IsCycle(p: seq<Component>)
  {
    |p| >= 2 && p[0] == p[|p| - 1] && IsPath(p)
  }

  /** Every dependency of a registered component is registered. */
  ghost predicate Registered(cs: seq<Component>)
  {
    forall c, d :: c in cs && d in c.dependsOn ==> d in cs
  }

  /** p is a cycle through registered components only. */
  ghost predicate CycleIn(older p: seq<Component>, cs: seq<Component>)
  {
    IsCycle(p) && forall i :: 0 <= i < |p| ==> p[i] in cs
  }

  /** No cycle runs through the registered components. */
  ghost predicate Acyclic(cs: seq<Component>)
  {
    !exists p :: CycleIn(p, cs)
  }

  /** Every dependency of a component occurs earlier in the order. */
  ghost predicate TopoOrder(order: seq<Component>)
  {
    forall i, d :: 0 <= i < |order| && d in order[i].dependsOn ==> d in order[..i]
  }

  /** The position of the first occurrence. */
  function First<T(==)>(s: seq<T>, x: T): (i: nat)
    requires x in s
    ensures i < |s| && s[i] == x && x !in s[..i]
  {
    if s[0] == x then 0 else 1 + First(s[1..], x)
  }

  /** Along a path starting inside a topological order, positions drop by
      at least one per edge. */
  lemma {:induction false} PathDescends(order: seq<Component>, p: seq<Component>, k: nat)
    requires TopoOrder(order) && IsPath(p) && |p| > 0 && p[0] in order && k < |p|
    ensures p[k] in order && First(order, p[k]) + k <= First(order, p[0])
  {
    if k > 0 {
      PathDescends(order, p, k - 1);
      var i := First(order, p[k - 1]);
      assert p[k] in order[i].dependsOn;
      assert p[k] in order[..i];
      var j :| 0 <= j < i && order[j] == p[k];
    }
  }

  /** A topological order of all registered components rules out cycles. */
  lemma TopoAcyclic(order: seq<Component>, cs: seq<Component>)
    requires TopoOrder(order) && forall c :: c in cs ==> c in order
    ensures Acyclic(cs)
  {
    if p :| CycleIn(p, cs) {
      PathDescends(order, p, |p| - 1);
      assert false;
    }
  }

  // ---------------------------------------------------------------------
  // Counting completed dependencies

  /** How many entries of xs are in s. */
  function CountIn<T>(xs: seq<T>, s: set<T>): nat
  {
    if xs == [] then 0
    else CountIn(xs[..|xs| - 1], s) + (if xs[|xs| - 1] in s then 1 else 0)
  }

  /** The count never exceeds the length, and reaches it exactly when every
      entry is in s. */
  lemma {:induction false} CountInFull<T>(xs: seq<T>, s: set<T>)
    ensures CountIn(xs, s) <= |xs|
    ensures CountIn(xs, s) == |xs| <==> forall x :: x in xs ==> x in s
  {
    if xs != [] {
      var init := xs[..|xs| - 1];
      CountInFull(init, s);
      assert xs == init + [xs[|xs| - 1]];
    }
  }

  /** Adding a new element to s adds its occurrences to the count. */
  lemma {:induction false} CountInAdd<T>(xs: seq<T>, s: set<T>, c: T)
    requires c !in s
    ensures CountIn(xs, s + {c}) == CountIn(xs, s) + Count(xs, c)
  {
    if xs != [] {
      CountInAdd(xs[..|xs| - 1], s, c);
    }
  }

  /** Nothing is counted in the empty set. */
  lemma {:induction false} CountInEmpty<T>(xs: seq<T>)
    ensures CountIn(xs, {}) == 0
  {
    if xs != [] {
      CountInEmpty(xs[..|xs| - 1]);
    }
  }

  /** An element occurs zero times exactly when it is absent. */
  lemma {:induction false} CountZero<T>(xs: seq<T>, x: T)
    ensures Count(xs, x) == 0 <==> x !in xs
  {
    if xs != [] {
      var init := xs[..|xs| - 1];
      CountZero(init, x);
      assert xs == init + [xs[|xs| - 1]];
    }
  }

  // ---------------------------------------------------------------------
  // What each component sees and produces

  /** The context a component has when it becomes ready: the results of
      its dependencies merged in the order they completed, a later one
      winning on a shared key. */
  function Inherited(deps: seq<Component>, order: seq<Component>, finals: map<Component, map<string, Value>>): map<string, Value>
  {
    if order == [] then map[]
    else
      var c := order[|order| - 1];
      Inherited(deps, order[..|order| - 1], finals) + (if c in deps && c in finals then finals[c] else map[])
  }

  /** Inherited only reads the results of components in the order. */
  lemma {:induction false} InheritedFrame(deps: seq<Component>, order: seq<Component>, f1: map<Component, map<string, Value>>, f2: map<Component, map<string, Value>>)
    requires forall x :: x in order ==> (x in f1 <==> x in f2) && (x in f1 ==> f1[x] == f2[x])
    ensures Inherited(deps, order, f1) == Inherited(deps, order, f2)
  {
    if order != [] {
      InheritedFrame(deps, order[..|order| - 1], f1, f2);
    }
  }

  /** A key is inherited exactly when some completed dependency produced
      it. */
  lemma {:induction false} InheritedKeys(deps: seq<Component>, order: seq<Component>, finals: map<Component, map<string, Value>>, key: string)
    ensures key in Inherited(deps, order, finals) <==>
      exists i :: 0 <= i < |order| && order[i] in deps && order[i] in finals && key in finals[order[i]]
  {
    if order != [] {
      var init := order[..|order| - 1];
      InheritedKeys(deps, init, finals, key);
      assert forall i :: 0 <= i < |init| ==> init[i] == order[i];
    }
  }

  /** The context after the stage ran on `input`, or its exception. */
  function Ran(stage: Stage, input: map<string, Value>): Result<map<string, Value>>
  {
    match stage(input)
    case Ok(writes) => Ok(ApplyWrites(input, writes))
    case Err(e) => Err(e)
  }

  /** The union of the components' results in list order, a later
      component winning on a shared key. */
  function Union(cs: seq<Component>, finals: map<Component, map<string, Value>>): map<string, Value>
  {
    if cs == [] then map[]
    else
      var c := cs[|cs| - 1];
      Union(cs[..|cs| - 1], finals) + (if c in finals then finals[c] else map[])
  }

  /** A key of the run's result comes from some component, and its value
      is that of the last component in the list that produced it. */
  lemma {:induction false} UnionAt(cs: seq<Component>, finals: map<Component, map<string, Value>>, key: string, i: nat)
    requires i < |cs| && cs[i] in finals && key in finals[cs[i]]
    requires forall j :: i < j < |cs| ==> cs[j] !in finals || key !in finals[cs[j]]
    ensures key in Union(cs, finals) && Union(cs, finals)[key] == finals[cs[i]][key]
  {
    if i < |cs| - 1 {
      UnionAt(cs[..|cs| - 1], finals, key, i);
    }
  }

  /** Keys no component produced are absent from the result. */
  lemma {:induction false} UnionOnly(cs: seq<Component>, finals: map<Component, map<string, Value>>, key: string)
    requires forall j :: 0 <= j < |cs| ==> cs[j] !in finals || key !in finals[cs[j]]
    ensures key !in Union(cs, finals)
  {
    if cs != [] {
      UnionOnly(cs[..|cs| - 1], finals, key);
    }
  }

  // ---------------------------------------------------------------------
  // The heap the run touches

  /** The registered components and the components they block. */
  ghost function Family(cs: seq<Component>): set<Component>
    reads set c | c in cs
  {
    (set c | c in cs) + (set c, x | c in cs && x in c.blocking :: x)
  }

  /** The contexts of a set of components. */
  ghost function Contexts(f: set<Component>): set<ExecutionContext>
  {
    set x | x in f :: x.context
  }

  /** Different components hold different contexts. */
  ghost predicate OwnContexts(f: set<Component>)
  {
    forall x, y {:trigger x.context, y.context} :: x in f && y in f && x != y ==> x.context != y.context
  }
  /** Each component's context is recorded as owned by it, which makes the
      contexts of different components different. */
  ghost predicate Owned(f: set<Component>, owner: map<ExecutionContext, Component>)
  {
    forall x :: x in f ==> x.context in owner && owner[x.context] == x
  }

  lemma OwnedDistinct(f: set<Component>, owner: map<ExecutionContext, Component>)
    requires Owned(f, owner)
    ensures OwnContexts(f)
  {
  }

  /** Unshared contexts have an owner map. */
  lemma Owners(f: set<Component>) returns (owner: map<ExecutionContext, Component>)
    requires OwnContexts(f)
    ensures Owned(f, owner)
  {
    owner := map o | o in Contexts(f) :: var x :| x in f && x.context == o; x;
  }


  /** Each component is in the blocking list of each dependency once per
      time it names that dependency, as the constructor arranges. */
  ghost predicate Linked(cs: set<Component>)
    reads cs
  {
    forall c, x {:trigger Count(c.blocking, x)} :: c in cs && x in cs ==> Count(c.blocking, x) == Count(x.dependsOn, c)
  }

  /** The state the constructor leaves: nothing completed, ready exactly
      without dependencies, an empty context. */
  ghost predicate Pristine(cs: seq<Component>)
    reads set c | c in cs, set c | c in cs :: c.context
  {
    forall x :: x in cs ==> x.completed == 0 && x.ready == (x.dependsOn == []) && x.context.results == map[]
  }

  class InferencePipeline {
    var components: seq<Component>

    constructor()
      ensures components == []
    {
      components := [];
    }

    /** add: appends the component and returns it. */
    method Add(c: Component) returns (r: Component)
      modifies this
      ensures components == old(components) + [c] && r == c
    {
      components := components + [c];
      r := c;
    }

    /** _has_cycle: depth-first search from c. `path` is the chain of
        components on the recursion stack and `done` the finished ones in
        the order they finished. A found cycle is returned as a witness;
        otherwise c and everything reachable from it are finished and the
        finished components stay in topological order. */
    method HasCycle(c: Component, visited: set<Component>, recStack: set<Component>,
                    ghost comps: set<Component>, ghost path: seq<Component>, ghost done: seq<Component>)
      returns (found: bool, visited': set<Component>, recStack': set<Component>,
               ghost done': seq<Component>, ghost cycle: seq<Component>)
      requires Closed(comps) && c in comps
      requires Search(visited, recStack, comps, path, done)
      requires |path| > 0 ==> c in path[|path| - 1].dependsOn
      ensures found ==> IsCycle(cycle) && forall i :: 0 <= i < |cycle| ==> cycle[i] in comps
      ensures !found ==> recStack' == recStack && Search(visited', recStack, comps, path, done')
      ensures !found ==> c in done' && visited <= visited' && forall x :: x in done ==> x in done'
      decreases |comps - visited|
    {
      if c in recStack {
        cycle := CycleOnStack(path, c);
        return true, visited, recStack, done, cycle;
      }
      if c in visited {
        return false, visited, recStack, done, [];
      }
      visited' := visited + {c};
      recStack' := recStack + {c};
      done' := done;
      ghost var path' := path + [c];
      Push(visited, recStack, comps, path, done, c);
      for i := 0 to |c.dependsOn|
        invariant recStack' == recStack + {c}
        invariant Search(visited', recStack', comps, path', done')
        invariant visited + {c} <= visited'
        invariant forall x :: x in done ==> x in done'
        invariant forall k :: 0 <= k < i ==> c.dependsOn[k] in done'
      {
        ProperSubsetCard(comps - visited', comps - visited, c);
        var f: bool;
        f, visited', recStack', done', cycle := HasCycle(c.dependsOn[i], visited', recStack', comps, path', done');
        if f {
          return true, visited', recStack', done', cycle;
        }
      }
      assert c !in path;
      Pop(visited', recStack, comps, path, done', c);
      recStack' := recStack' - {c};
      done' := done' + [c];
      found := false;
      cycle := [];
    }

    /** _validate: first every dependency must be registered, then the
        search from each unvisited component must find no cycle. On success
        the finished components form a topological order of the pipeline. */
    method Validate() returns (st: Status, ghost topo: seq<Component>)
      ensures st == Fail(UnregisteredDependency) <==> !Registered(components)
      ensures st == Fail(CycleDetected) <==> Registered(components) && !Acyclic(components)
      ensures st == Done <==> Registered(components) && Acyclic(components)
      ensures st == Done ==> TopoOrder(topo) && Elems(topo) == Elems(components)
    {
      for i := 0 to |components|
        invariant forall k, d :: 0 <= k < i && d in components[k].dependsOn ==> d in components
      {
        for j := 0 to |components[i].dependsOn|
          invariant forall k :: 0 <= k < j ==> components[i].dependsOn[k] in components
        {
          if components[i].dependsOn[j] !in components {
            return Fail(UnregisteredDependency), [];
          }
        }
      }
      ghost var comps := Elems(components);
      var visited: set<Component> := {};
      var recStack: set<Component> := {};
      topo := [];
      for i := 0 to |components|
        invariant recStack == {} && Search(visited, recStack, comps, [], topo)
        invariant forall k :: 0 <= k < i ==> components[k] in visited
      {
        if components[i] !in visited {
          var found: bool;
          ghost var cycle: seq<Component>;
          found, visited, recStack, topo, cycle := HasCycle(components[i], visited, recStack, comps, [], topo);
          if found {
            assert CycleIn(cycle, components);
            return Fail(CycleDetected), topo;
          }
        }
      }
      TopoAcyclic(topo, components);
      st := Done;
    }

    /** _execute_component, once the component is ready: execute it, then
        notify each component it blocks, in order. A stage that raises
        notifies nobody. */
    method ExecuteComponent(c: Component) returns (st: Status)
      requires c !in c.blocking && OwnContexts(Elems(c.blocking) + {c})
      modifies c.context, Elems(c.blocking), Contexts(Elems(c.blocking))
      ensures st.Fail? <==> c.stage(old(c.context.results)).Err?
      ensures st.Fail? ==> c.stage(old(c.context.results)) == Err(st.error)
      ensures st.Fail? ==> c.context.results == old(c.context.results)
      ensures st.Done? ==> Ran(c.stage, old(c.context.results)) == Ok(c.context.results)
      ensures var before := old(Snap(Elems(c.blocking)));
        forall x :: x in c.blocking ==>
          x in before && Notified(x, c, if st.Done? then Count(c.blocking, x) else 0, before[x], c.context.results)
    {
      ghost var before := Snap(Elems(c.blocking));
      st := c.Execute();
      if st.Done? {
        NotifyChildren(c, c.blocking, before);
      }
    }

    /** The loop over `component.blocking` in _execute_component: each
        blocked component is told, in order, that c has completed.
        `before` records the state of each of them beforehand. */
    method NotifyChildren(c: Component, children: seq<Component>, ghost before: map<Component, Progress>)
      requires children == c.blocking && c !in children && OwnContexts(Elems(children) + {c})
      requires forall x :: x in children ==> x in before && Notified(x, c, 0, before[x], c.context.results)
      modifies Elems(children), Contexts(Elems(children))
      ensures c.context.results == old(c.context.results)
      ensures forall x :: x in children ==> Notified(x, c, Count(children, x), before[x], c.context.results) && Count(children, x) > 0
    {
      ghost var cres := c.context.results;
      var j := 0;
      while j < |children|
        invariant 0 <= j <= |children|
        invariant c.context.results == cres
        invariant forall x :: x in children ==> Notified(x, c, Count(children[..j], x), before[x], cres)
      {
        assert children[..j + 1][..j] == children[..j];
        var child := children[j];
        if c in child.dependsOn {
          MergeTwice(before[child].results, cres);
        }
        child.NotifyCompletion(c);
        j := j + 1;
      }
      assert children[..j] == children;
      forall x | x in children
        ensures Count(children, x) > 0
      {
        CountZero(children, x);
      }
    }

    /** run: validate, execute every component once its dependencies have
        completed, and union the results in registration order. `order` is
        the order in which the components ran and `finals` their final
        results. */
    method Run() returns (r: Result<map<string, Value>>, ghost order: seq<Component>, ghost finals: map<Component, map<string, Value>>)
      requires Distinct(components) && Pristine(components)
      requires Linked(Elems(components)) && OwnContexts(Family(components))
      modifies Family(components), Contexts(Family(components))
      ensures !Registered(components) ==> r == Err(UnregisteredDependency)
      ensures Registered(components) && !Acyclic(components) ==> r == Err(CycleDetected)
      ensures r.Err? && Registered(components) && Acyclic(components) ==>
        exists x :: x in components && x.stage(Inherited(x.dependsOn, order, finals)) == Err(r.error)
      ensures r.Ok? ==> Registered(components) && Acyclic(components)
      ensures r.Ok? ==> Distinct(order) && Elems(order) == Elems(components) && TopoOrder(order)
      ensures r.Ok? ==> forall x :: x in components ==>
        x in finals && x.context.results == finals[x]
        && Ran(x.stage, Inherited(x.dependsOn, order, finals)) == Ok(finals[x])
      ensures r.Ok? ==> r.value == Union(components, finals)
    {
      ghost var F := Family(components);
      ghost var blk := map x | x in F :: x.blocking;
      var st: Status;
      ghost var topo: seq<Component>;
      st, topo := Validate();
      order, finals := [], map[];
      if st.Fail? {
        return Err(st.error), order, finals;
      }
      ghost var comps := Elems(components);
      ghost var owner := RunStart(components, F, blk);
      ghost var culprit;
      assert comps - comps == {};
      st, order, finals, culprit := Schedule(Elems(components), comps, topo, F, blk, owner, [], map[]);
      if st.Fail? {
        assert culprit in components;
        return Err(st.error), order, finals;
      }
      RunFinished(components, F, blk, order, finals);
      var result := Gather(components, finals);
      r := Ok(result);
    }

    /** The scheduling asyncio does for run: while components are
        pending, a ready one takes its turn; the first stage that raises
        ends the run with its error. `order` and `finals` extend the
        bookkeeping of the components that already ran. */
    method Schedule(pending: set<Component>, ghost comps: set<Component>, ghost topo: seq<Component>, ghost F: set<Component>,
                   ghost blk: map<Component, seq<Component>>, ghost owner: map<ExecutionContext, Component>,
                   ghost order0: seq<Component>, ghost finals0: map<Component, map<string, Value>>)
      returns (st: Status, ghost order: seq<Component>, ghost finals: map<Component, map<string, Value>>, ghost culprit: Component?)
      requires TopoOrder(topo) && Elems(topo) == comps && pending <= comps
      requires Wiring(comps, F, blk, owner) && Running(comps, F, blk, order0, finals0, comps - pending)
      modifies F, Contexts(F)
      ensures st.Fail? ==> culprit != null && culprit in comps && culprit.stage(Inherited(culprit.dependsOn, order, finals)) == Err(st.error)
      ensures st.Done? ==> Running(comps, F, blk, order, finals, comps)
      decreases pending
    {
      if pending == {} {
        assert comps - pending == comps;
        return Done, order0, finals0, null;
      }
      var pending';
      st, pending', order, finals, culprit := Turn(pending, comps, topo, F, blk, owner, order0, finals0);
      if st.Fail? {
        return;
      }
      st, order, finals, culprit := Schedule(pending', comps, topo, F, blk, owner, order, finals);
    }

    /** One turn of the event loop: some pending component is ready; it
        runs and leaves the pending set. */
    method Turn(pending: set<Component>, ghost comps: set<Component>, ghost topo: seq<Component>, ghost F: set<Component>,
                ghost blk: map<Component, seq<Component>>, ghost owner: map<ExecutionContext, Component>, ghost order: seq<Component>, ghost finals: map<Component, map<string, Value>>)
      returns (st: Status, pending': set<Component>, ghost order': seq<Component>, ghost finals': map<Component, map<string, Value>>,
               ghost culprit: Component)
      requires TopoOrder(topo) && Elems(topo) == comps && pending != {} && pending <= comps
      requires Wiring(comps, F, blk, owner) && Running(comps, F, blk, order, finals, comps - pending)
      modifies F, Contexts(F)
      ensures st.Fail? ==> culprit in comps && culprit.stage(Inherited(culprit.dependsOn, order', finals')) == Err(st.error)
      ensures st.Done? ==> pending' < pending && Running(comps, F, blk, order', finals', comps - pending')
    {
      ghost var executed := comps - pending;
      ReadyExists(topo, pending, executed, comps, F, blk, order, finals);
      var c :| c in pending && c.ready;
      pending', order', finals', culprit := pending, order, finals, c;
      st, finals' := RunReady(c, comps, F, blk, owner, order, finals, executed);
      if st.Fail? {
        finals' := finals;
        return;
      }
      Retire(comps, pending, executed, c);
      pending' := pending - {c};
      order' := order + [c];
    }

    /** One turn of the event loop: the ready component c runs and notifies
        the components it blocks. The bookkeeping of the run is kept. */
    method RunReady(c: Component, ghost comps: set<Component>, ghost F: set<Component>, ghost blk: map<Component, seq<Component>>,
                    ghost owner: map<ExecutionContext, Component>,
                    ghost order: seq<Component>, ghost finals: map<Component, map<string, Value>>, ghost executed: set<Component>)
      returns (st: Status, ghost finals': map<Component, map<string, Value>>)
      requires c in comps && c !in executed && c.ready
      requires Wiring(comps, F, blk, owner) && Running(comps, F, blk, order, finals, executed)
      modifies F, Contexts(F)
      ensures st.Fail? ==> c.stage(Inherited(c.dependsOn, order, finals)) == Err(st.error)
      ensures st.Done? ==> finals' == finals[c := c.context.results]
      ensures st.Done? ==> Running(comps, F, blk, order + [c], finals', executed + {c})
    {
      CountInFull(c.dependsOn, executed);
      CountZero(blk[c], c);
      CountZero(c.dependsOn, c);
      assert c !in c.blocking;
      assert Elems(c.blocking) + {c} <= F;
      OwnedDistinct(Elems(c.blocking) + {c}, owner);
      ghost var pre := Snap(F);
      ghost var input := c.context.results;
      assert input == Inherited(c.dependsOn, order, finals);
      st := ExecuteComponent(c);
      finals' := finals[c := c.context.results];
      forall x | x in F
        ensures x.blocking == blk[x]
        ensures x in c.blocking ==> Notified(x, c, if st.Done? then Count(c.blocking, x) else 0, pre[x], c.context.results)
        ensures x !in c.blocking ==> x.completed == pre[x].completed && x.ready == pre[x].ready
        ensures x !in c.blocking && x != c ==> x.context.results == pre[x].results
      {
      }
      if st.Fail? {
        return;
      }
      CountersStep(comps, executed, c, blk[c], pre);
      ContentsStep(comps, order, finals, executed, c, blk[c], pre, c.context.results);
      ScheduledStep(comps, order, finals, executed, c, c.context.results);
    }
  }

  /** The recursion stack closes a cycle when c is already on it. */
  lemma CycleOnStack(path: seq<Component>, c: Component) returns (cycle: seq<Component>)
    requires IsPath(path) && c in path && c in path[|path| - 1].dependsOn
    ensures IsCycle(cycle) && forall i :: 0 <= i < |cycle| ==> cycle[i] in path
  {
    var k :| 0 <= k < |path| && path[k] == c;
    cycle := path[k..] + [c];
    forall i | 0 <= i < |cycle| - 1
      ensures cycle[i + 1] in cycle[i].dependsOn
    {
      if i < |cycle| - 2 {
        assert cycle[i] == path[k + i] && cycle[i + 1] == path[k + i + 1];
      }
    }
  }

  /** Pushing a dependency of the top keeps the stack a path. */
  lemma PathExtend(path: seq<Component>, c: Component)
    requires IsPath(path) && (|path| > 0 ==> c in path[|path| - 1].dependsOn)
    ensures IsPath(path + [c])
  {
    var p := path + [c];
    forall i | 0 <= i < |p| - 1
      ensures p[i + 1] in p[i].dependsOn
    {
      if i < |path| - 1 {
        assert p[i] == path[i] && p[i + 1] == path[i + 1];
      }
    }
  }

  /** A component whose dependencies are all finished may finish next. */
  lemma TopoExtend(done: seq<Component>, c: Component)
    requires TopoOrder(done) && forall d :: d in c.dependsOn ==> d in done
    ensures TopoOrder(done + [c])
  {
    var p := done + [c];
    assert p[..|done|] == done;
    forall i, d | 0 <= i < |p| && d in p[i].dependsOn
      ensures d in p[..i]
    {
      if i < |done| {
        assert p[..i] == done[..i];
      }
    }
  }

  // ---------------------------------------------------------------------
  // The bookkeeping of a run

  /** The wiring the constructors left: every registered component and
      each component it blocks is in F, the blocking lists recorded in blk
      match the dependency lists, and contexts are not shared. */
  ghost predicate Wiring(comps: set<Component>, F: set<Component>, blk: map<Component, seq<Component>>,
                         owner: map<ExecutionContext, Component>)
  {
    comps <= F && Owned(F, owner)
    && (forall x :: x in F ==> x in blk)
    && (forall c, x :: c in comps && x in blk[c] ==> x in F)
    && (forall c, x {:trigger Count(blk[c], x)} :: c in comps && x in comps ==> Count(blk[c], x) == Count(x.dependsOn, c))
  }

  /** The blocking lists are still those recorded in blk. */
  ghost predicate Blocking(F: set<Component>, blk: map<Component, seq<Component>>)
    reads F
  {
    forall x :: x in F ==> x in blk && x.blocking == blk[x]
  }

  /** The components that ran, in order, each after its dependencies, with
      their final results recorded. */
  ghost predicate Scheduled(comps: set<Component>, order: seq<Component>, finals: map<Component, map<string, Value>>, executed: set<Component>)
  {
    executed <= comps && executed == Elems(order) && Distinct(order) && TopoOrder(order)
    && finals.Keys == executed
  }

  /** Each counter counts the completed dependencies, and the ready flag is
      set exactly when all have completed. */
  ghost predicate Counters(comps: set<Component>, executed: set<Component>)
    reads comps
  {
    forall x :: x in comps ==>
      x.completed == CountIn(x.dependsOn, executed) && (x.ready <==> x.completed >= |x.dependsOn|)
  }

  /** The state of a run after the components in `executed` ran in
      `order` with results `finals`. */
  ghost predicate Running(comps: set<Component>, F: set<Component>, blk: map<Component, seq<Component>>,
                          order: seq<Component>, finals: map<Component, map<string, Value>>, executed: set<Component>)
    reads F, Contexts(F)
  {
    comps <= F && Blocking(F, blk) && Scheduled(comps, order, finals, executed)
    && Counters(comps, executed) && Contents(comps, order, finals, executed)
  }

  /** A component that ran holds the stage's result on what it inherited;
      one that has not run holds what it inherited so far. */
  ghost predicate Contents(comps: set<Component>, order: seq<Component>, finals: map<Component, map<string, Value>>, executed: set<Component>)
    reads comps, Contexts(comps)
  {
    (forall x :: x in comps && x in executed ==>
      x in finals && x.context.results == finals[x] && Ran(x.stage, Inherited(x.dependsOn, order, finals)) == Ok(finals[x]))
    && (forall x :: x in comps && x !in executed ==> x.context.results == Inherited(x.dependsOn, order, finals))
  }

  /** Before the first step: the constructors' wiring, nothing run, every
      counter zero and every context empty. */
  lemma RunStart(components: seq<Component>, F: set<Component>, blk: map<Component, seq<Component>>)
    returns (owner: map<ExecutionContext, Component>)
    requires F == Family(components) && blk == map x | x in F :: x.blocking
    requires Pristine(components) && Linked(Elems(components)) && OwnContexts(F)
    ensures Wiring(Elems(components), F, blk, owner) && Running(Elems(components), F, blk, [], map[], {})
  {
    owner := Owners(F);
    forall x | x in components
      ensures CountIn(x.dependsOn, {}) == 0
    {
      CountInEmpty(x.dependsOn);
    }
  }

  /** The counters and flags after c completed. */
  lemma CountersStep(comps: set<Component>, executed: set<Component>, c: Component, blkc: seq<Component>, pre: map<Component, Progress>)
    requires c !in executed
    requires forall x :: x in comps ==>
      x in pre && pre[x].completed == CountIn(x.dependsOn, executed) && (pre[x].ready <==> pre[x].completed >= |x.dependsOn|)
    requires forall x :: x in comps ==> Count(blkc, x) == Count(x.dependsOn, c)
    requires forall x :: x in comps && x in blkc ==> Notified(x, c, Count(blkc, x), pre[x], c.context.results)
    requires forall x :: x in comps && x !in blkc ==> x.completed == pre[x].completed && x.ready == pre[x].ready
    ensures Counters(comps, executed + {c})
  {
    forall x | x in comps
      ensures x.completed == CountIn(x.dependsOn, executed + {c})
    {
      CountInAdd(x.dependsOn, executed, c);
      CountZero(blkc, x);
      CountZero(x.dependsOn, c);
    }
  }

  /** The results after c ran on what it inherited and its results were
      merged into the components it blocks. */
  lemma ContentsStep(comps: set<Component>, order: seq<Component>, finals: map<Component, map<string, Value>>,
                     executed: set<Component>, c: Component, blkc: seq<Component>, pre: map<Component, Progress>,
                     produced: map<string, Value>)
    requires Scheduled(comps, order, finals, executed) && c in comps && c !in executed
    requires forall d :: d in c.dependsOn ==> d in executed
    requires forall x :: x in comps ==> x in pre
    requires forall x :: x in comps && x in executed ==>
      pre[x].results == finals[x] && Ran(x.stage, Inherited(x.dependsOn, order, finals)) == Ok(finals[x])
    requires forall x :: x in comps && x !in executed ==> pre[x].results == Inherited(x.dependsOn, order, finals)
    requires Ran(c.stage, pre[c].results) == Ok(produced) && c.context.results == produced
    requires forall x :: x in comps ==> Count(blkc, x) == Count(x.dependsOn, c)
    requires forall x :: x in comps && x in blkc ==> Notified(x, c, Count(blkc, x), pre[x], produced)
    requires forall x :: x in comps && x !in blkc && x != c ==> x.context.results == pre[x].results
    ensures Contents(comps, order + [c], finals[c := produced], executed + {c})
  {
    var order' := order + [c];
    var finals' := finals[c := produced];
    forall x | x in comps
      ensures x in blkc <==> c in x.dependsOn
    {
      CountZero(blkc, x);
      CountZero(x.dependsOn, c);
    }
    forall x | x in comps && x in executed
      ensures x.context.results == finals'[x]
      ensures Ran(x.stage, Inherited(x.dependsOn, order', finals')) == Ok(finals'[x])
    {
      InheritedStep(x.dependsOn, order, finals, c, produced);
      if c in x.dependsOn {
        DepRan(order, x, c);
      }
    }
    InheritedStep(c.dependsOn, order, finals, c, produced);
    forall x | x in comps && x !in executed + {c}
      ensures x.context.results == Inherited(x.dependsOn, order', finals')
    {
      InheritedStep(x.dependsOn, order, finals, c, produced);
      CountZero(blkc, x);
      if c in x.dependsOn {
        assert Count(blkc, x) > 0 && Notified(x, c, Count(blkc, x), pre[x], produced);
      }
    }
  }

  /** Appending c to the order adds its results for the components that
      depend on it, and nothing for the others. */
  lemma InheritedStep(deps: seq<Component>, order: seq<Component>, finals: map<Component, map<string, Value>>,
                      c: Component, produced: map<string, Value>)
    requires c !in order
    ensures c in deps ==> Inherited(deps, order + [c], finals[c := produced]) == Inherited(deps, order, finals) + produced
    ensures c !in deps ==> Inherited(deps, order + [c], finals[c := produced]) == Inherited(deps, order, finals)
  {
    assert (order + [c])[..|order|] == order;
    InheritedFrame(deps, order, finals[c := produced], finals);
  }

  /** In a topological order, the dependencies of a component that ran
      also ran. */
  lemma DepRan(order: seq<Component>, x: Component, d: Component)
    requires TopoOrder(order) && x in order && d in x.dependsOn
    ensures d in order
  {
    var i :| 0 <= i < |order| && order[i] == x;
    assert d in order[..i];
  }

  /** The order grows by c, which ran after its dependencies. */
  lemma ScheduledStep(comps: set<Component>, order: seq<Component>, finals: map<Component, map<string, Value>>,
                      executed: set<Component>, c: Component, produced: map<string, Value>)
    requires Scheduled(comps, order, finals, executed) && c in comps && c !in executed
    requires forall d :: d in c.dependsOn ==> d in executed
    ensures Scheduled(comps, order + [c], finals[c := produced], executed + {c})
  {
    TopoExtend(order, c);
  }

  /** After the last step every component ran, in a topological order,
      and holds its final results. */
  lemma RunFinished(components: seq<Component>, F: set<Component>, blk: map<Component, seq<Component>>,
                    order: seq<Component>, finals: map<Component, map<string, Value>>)
    requires Running(Elems(components), F, blk, order, finals, Elems(components))
    ensures Distinct(order) && Elems(order) == Elems(components) && TopoOrder(order)
    ensures forall x :: x in components ==>
      x in finals && x.context.results == finals[x]
      && Ran(x.stage, Inherited(x.dependsOn, order, finals)) == Ok(finals[x])
  {
  }

  /** The closing loop of run: each component's results are merged in list
      order. */
  method Gather(cs: seq<Component>, ghost finals: map<Component, map<string, Value>>) returns (result: map<string, Value>)
    requires forall x :: x in cs ==> x in finals && x.context.results == finals[x]
    ensures result == Union(cs, finals)
  {
    result := map[];
    for i := 0 to |cs|
      invariant result == Union(cs[..i], finals)
    {
      assert cs[..i + 1][..i] == cs[..i];
      result := result + cs[i].context.results;
    }
    assert cs[..|cs|] == cs;
  }

  /** Moving c from the pending to the executed components. */
  lemma Retire(comps: set<Component>, pending: set<Component>, executed: set<Component>, c: Component)
    requires c in pending && pending <= comps && executed == comps - pending
    ensures pending - {c} < pending && executed + {c} == comps - (pending - {c})
  {
  }

  /** Some pending component is ready: the first pending one in a
      topological order has all its dependencies completed. */
  lemma ReadyExists(topo: seq<Component>, pending: set<Component>, executed: set<Component>, comps: set<Component>,
                    F: set<Component>, blk: map<Component, seq<Component>>, order: seq<Component>, finals: map<Component, map<string, Value>>)
    requires TopoOrder(topo) && Elems(topo) == comps
    requires pending != {} && pending <= comps && executed == comps - pending
    requires Running(comps, F, blk, order, finals, executed)
    ensures exists c :: c in pending && c.ready
  {
    var i := FirstPending(topo, pending);
    var c := topo[i];
    forall d | d in c.dependsOn
      ensures d in executed
    {
      assert d in topo[..i];
    }
    CountInFull(c.dependsOn, executed);
  }

  /** The first position of the order holding a pending component. */
  lemma FirstPending(topo: seq<Component>, pending: set<Component>) returns (i: nat)
    requires pending != {} && pending <= Elems(topo)
    ensures i < |topo| && topo[i] in pending && forall k :: 0 <= k < i ==> topo[k] !in pending
  {
    var x :| x in pending;
    var j := First(topo, x);
    i := 0;
    while topo[i] !in pending
      invariant i <= j && forall k :: 0 <= k < i ==> topo[k] !in pending
      decreases j - i
    {
      i := i + 1;
    }
  }

  /** What notification may change in a component. */
  datatype Progress = Progress(blocking: seq<Component>, completed: nat, ready: bool, results: map<string, Value>)

  /** The counters, flags and results of a set of components. */
  ghost function Snap(f: set<Component>): map<Component, Progress>
    reads f, Contexts(f)
  {
    map x | x in f :: Progress(x.blocking, x.completed, x.ready, x.context.results)
  }

  /** The state of x after being told n times that c completed, starting
      from `from`, where c's results are `cres`: the blocking list never
      changes. */
  ghost predicate Notified(x: Component, c: Component, n: nat, from: Progress, cres: map<string, Value>)
    reads x, x.context
  {
    x.blocking == from.blocking
    && x.completed == from.completed + (if c in x.dependsOn then n else 0)
    && x.ready == (from.ready || (c in x.dependsOn && n > 0 && x.completed >= |x.dependsOn|))
    && x.context.results == from.results + (if c in x.dependsOn && n > 0 then cres else map[])
  }

  /** Merging the same results twice is merging them once. */
  lemma MergeTwice(m: map<string, Value>, extra: map<string, Value>)
    ensures m + extra + extra == m + extra
  {
  }

  /** Removing an element and perhaps more makes a set smaller. */
  lemma ProperSubsetCard<T>(a: set<T>, b: set<T>, x: T)
    requires a <= b && x in b && x !in a
    ensures |a| < |b|
  {
    assert b == a + (b - a);
    assert |b| == |a| + |b - a|;
    assert x in b - a;
  }

  /** The registered set is closed under dependencies. */
  ghost predicate Closed(comps: set<Component>)
  {
    forall x, d :: x in comps && d in x.dependsOn ==> d in comps
  }

  /** The search state: the stack holds exactly the components of the path,
      the visited ones are those finished or on the stack (never both), and
      the finished ones are in topological order. */
  ghost predicate Search(visited: set<Component>, recStack: set<Component>, comps: set<Component>,
                         path: seq<Component>, done: seq<Component>)
  {
    (forall x :: x in recStack ==> x in path)
    && (forall i :: 0 <= i < |path| ==> path[i] in recStack)
    && (forall x :: x in visited ==> x in done || x in recStack)
    && (forall i :: 0 <= i < |done| ==> done[i] in visited && done[i] !in recStack)
    && recStack <= visited <= comps && IsPath(path) && TopoOrder(done)
  }

  /** Entering an unvisited component pushes it on the stack. */
  lemma Push(visited: set<Component>, recStack: set<Component>, comps: set<Component>,
             path: seq<Component>, done: seq<Component>, c: Component)
    requires Search(visited, recStack, comps, path, done) && c !in visited && c in comps
    requires |path| > 0 ==> c in path[|path| - 1].dependsOn
    ensures Search(visited + {c}, recStack + {c}, comps, path + [c], done)
  {
    PathExtend(path, c);
  }

  /** Leaving a component whose dependencies are all finished finishes it. */
  lemma Pop(visited: set<Component>, recStack: set<Component>, comps: set<Component>,
            path: seq<Component>, done: seq<Component>, c: Component)
    requires Search(visited, recStack + {c}, comps, path + [c], done) && c !in recStack && c !in path
    requires forall d :: d in c.dependsOn ==> d in done
    ensures Search(visited, recStack, comps, path, done + [c])
  {
    TopoExtend(done, c);
    forall i | 0 <= i < |path|
      ensures path[i] in recStack
    {
      assert (path + [c])[i] == path[i];
    }
    assert IsPath(path) by {
      forall i | 0 <= i < |path| - 1
        ensures path[i + 1] in path[i].dependsOn
      {
        assert (path + [c])[i] == path[i] && (path + [c])[i + 1] == path[i + 1];
      }
    }
  }
}
