/** AsyncTasks/AsyncTaskGraph: the dependency-graph builder and the execution order
    made from it, which counts outstanding dependencies per task. */
module TaskGraph {
  import opened Collections
  import opened Graphs

  type TaskID = Vertex

  datatype BuilderVertex = BuilderVertex(vFrom: set<TaskID>, vTo: set<TaskID>)

  ghost function DepsOf(vs: seq<BuilderVertex>): Graph {
    map i | 0 <= i < |vs| :: vs[i].vFrom
  }

  /** vFrom and vTo are inverse relations over the existing vertices. */
  ghost predicate Inverse(vs: seq<BuilderVertex>) {
    && (forall i, j {:trigger j in vs[i].vFrom} :: 0 <= i < |vs| && j in vs[i].vFrom ==> j < |vs| && i in vs[j].vTo)
    && (forall i, j {:trigger j in vs[i].vTo} :: 0 <= i < |vs| && j in vs[i].vTo ==> j < |vs| && i in vs[j].vFrom)
  }

  class AsyncGraphBuilder {
    var vertices: seq<BuilderVertex>

    ghost predicate Valid() reads this { Inverse(vertices) }

    ghost function Deps(): Graph reads this { DepsOf(vertices) }

    constructor ()
      ensures Valid() && Deps() == map[]
    {
      vertices := [];
    }

    method AddTask() returns (id: TaskID)
      requires Valid()
      modifies this
      ensures Valid()
      ensures id == |old(vertices)| && id !in old(Deps())
      ensures Deps() == old(Deps())[id := {}]
    {
      id := |vertices|;
      vertices := vertices + [BuilderVertex({}, {})];
    }

    /** ok is false where the source throws AsyncGraphException. */
    method ClearDependencies(id: TaskID) returns (ok: bool)
      requires Valid()
      modifies this
      ensures Valid()
      ensures ok <==> id in old(Deps())
      ensures Deps() == if ok then old(Deps())[id := {}] else old(Deps())
    {
      if id >= |vertices| {
        return false;
      }
      var rest := vertices[id].vFrom;
      ghost var start := vertices;
      while rest != {}
        invariant |vertices| == |start| && rest <= start[id].vFrom
        invariant forall i :: 0 <= i < |start| ==> vertices[i].vFrom == start[i].vFrom
        invariant forall i :: 0 <= i < |start| ==>
          vertices[i].vTo == if i in start[id].vFrom - rest then start[i].vTo - {id} else start[i].vTo
        decreases rest
      {
        var dep :| dep in rest;
        vertices := vertices[dep := vertices[dep].(vTo := vertices[dep].vTo - {id})];
        rest := rest - {dep};
      }
      vertices := vertices[id := vertices[id].(vFrom := {})];
      assert Inverse(start);
      ok := true;
    }

    method AddDependency(fromId: TaskID, toId: TaskID) returns (ok: bool)
      requires Valid()
      modifies this
      ensures Valid()
      ensures ok <==> fromId in old(Deps()) && toId in old(Deps())
      ensures Deps() == if ok then old(Deps())[fromId := old(Deps())[fromId] + {toId}] else old(Deps())
    {
      if fromId >= |vertices| || toId >= |vertices| {
        return false;
      }
      vertices := vertices[fromId := vertices[fromId].(vFrom := vertices[fromId].vFrom + {toId})];
      vertices := vertices[toId := vertices[toId].(vTo := vertices[toId].vTo + {fromId})];
      ok := true;
    }

    /** The list form throws at the first bad target and keeps the edges added before it. */
    method AddDependencies(fromId: TaskID, toIds: seq<TaskID>) returns (ok: bool, ghost added: nat)
      requires Valid()
      modifies this
      ensures Valid()
      ensures added <= |toIds|
      ensures ok <==> added == |toIds|
      ensures ok <==> toIds == [] || (fromId in old(Deps()) && forall t :: t in toIds ==> t in old(Deps()))
      ensures added > 0 ==> fromId in old(Deps())
      ensures !ok ==> !(fromId in old(Deps()) && toIds[added] in old(Deps()))
      ensures Deps() == if added == 0 then old(Deps())
                        else old(Deps())[fromId := old(Deps())[fromId] + Range(toIds[..added])]
    {
      added := 0;
      ok := true;
      for i := 0 to |toIds|
        invariant Valid() && ok && added == i
        invariant i > 0 ==> fromId in old(Deps())
        invariant forall k :: 0 <= k < i ==> toIds[k] in old(Deps())
        invariant Deps().Keys == old(Deps()).Keys
        invariant Deps() == if i == 0 then old(Deps())
                            else old(Deps())[fromId := old(Deps())[fromId] + Range(toIds[..i])]
      {
        ok := AddDependency(fromId, toIds[i]);
        if !ok { return; }
        assert toIds[..i + 1] == toIds[..i] + [toIds[i]];
        RangeAppend(toIds[..i], toIds[i]);
        ghost var base := old(Deps())[fromId];
        assert i == 0 ==> base + Range(toIds[..1]) == base + {toIds[0]};
        assert base + Range(toIds[..i + 1]) == base + Range(toIds[..i]) + {toIds[i]};
        added := i + 1;
      }
    }
  }

  datatype TaskState = TaskState(
    dependentTasks: seq<TaskID>,
    originalDependencyCount: nat,
    dependencyCount: int)

  /** The tasks whose dependencies have all completed. */
  ghost function Eligible(g: Graph, done: seq<TaskID>): set<TaskID> {
    set v | v in g && g[v] <= Range(done)
  }

  /** released lists, once each, the tasks that the completion of t makes eligible. */
  ghost predicate Releases(g: Graph, done: seq<TaskID>, t: TaskID, released: seq<TaskID>) {
    && NoDup(released)
    && Range(released) == Eligible(g, done + [t]) - Eligible(g, done)
  }

  ghost function Dependents(g: Graph, i: TaskID): set<TaskID> {
    set v | v in g && i in g[v]
  }

  /** The fixed part of one task's state: who waits for it, and for how many it waits. */
  ghost predicate LinksOf(g: Graph, st: TaskState, i: TaskID) {
    && NoDup(st.dependentTasks) && Range(st.dependentTasks) == Dependents(g, i)
    && i in g && st.originalDependencyCount == |g[i]|
  }

  /** The part of an order that no run changes. */
  ghost predicate Describes(g: Graph, states: seq<TaskState>, initial: seq<TaskID>) {
    && |g| == |states| && (forall i :: i in g <==> 0 <= i < |states|)
    && Closed(g)
    && (forall i {:trigger LinksOf(g, states[i], i)} :: 0 <= i < |states| ==> LinksOf(g, states[i], i))
    && NoDup(initial) && Range(initial) == Eligible(g, [])
  }

  ghost predicate CountOf(g: Graph, st: TaskState, done: seq<TaskID>, i: TaskID)
    requires i in g
  {
    st.dependencyCount == |g[i] - Range(done)|
  }

  /** Each counter is the number of dependencies that have not completed. */
  ghost predicate Counts(g: Graph, states: seq<TaskState>, done: seq<TaskID>) {
    forall i {:trigger CountOf(g, states[i], done, i)} :: 0 <= i < |states| && i in g ==> CountOf(g, states[i], done, i)
  }

  class AsyncGraphOrder {
    var initialTasks: seq<TaskID>
    var taskStates: seq<TaskState>
    var completedTasks: nat
    var executingTasks: int
    ghost var graph: Graph
    ghost var started: bool
    ghost var done: seq<TaskID>       // tasks reported complete, in that order
    ghost var handedOut: seq<TaskID>  // tasks given to the caller, in that order

    ghost predicate Valid() reads this {
      && Describes(graph, taskStates, initialTasks)
      && Counts(graph, taskStates, done)
      && TopoOrder(graph, done)
      && NoDup(handedOut)
      && Range(handedOut) == (if started then Eligible(graph, done) else {})
      && Range(done) <= Range(handedOut)
      && completedTasks == |done|
      && executingTasks == |handedOut| - |done|
    }

    /** Nothing handed out yet. */
    ghost predicate Fresh() reads this {
      !started && done == [] && handedOut == []
    }

    constructor (builder: AsyncGraphBuilder)
      requires builder.Valid()
      ensures Valid() && Fresh() && graph == builder.Deps()
    {
      var vs := builder.vertices;
      var states: seq<TaskState> := [];
      var initial: seq<TaskID> := [];
      for id := 0 to |vs|
        invariant Built(vs[..id], states, initial)
      {
        var deps: seq<TaskID> := [];
        var rest := vs[id].vTo;
        while rest != {}
          invariant NoDup(deps) && Range(deps) == vs[id].vTo - rest && rest <= vs[id].vTo
          decreases rest
        {
          var d :| d in rest;
          RangeAppend(deps, d);
          assert d !in Range(deps);
          deps := deps + [d];
          rest := rest - {d};
        }
        BuiltStep(vs, states, initial, id, deps);
        states := states + [TaskState(deps, |vs[id].vFrom|, |vs[id].vFrom|)];
        if |vs[id].vFrom| == 0 {
          initial := initial + [id];
        }
      }
      assert vs[..|vs|] == vs;
      taskStates := states;
      initialTasks := initial;
      completedTasks := 0;
      executingTasks := 0;
      started := false;
      done := [];
      handedOut := [];
      graph := DepsOf(vs);
      new;
      BuiltCounts(vs, states, initial);
      BuiltDescribes(vs, states, initial);
    }

    method HasUnexecutedTasks() returns (more: bool)
      requires Valid()
      ensures more <==> exists v :: v in graph && v !in done
    {
      more := completedTasks < |taskStates|;
      DoneSize(graph, done);
    }

    method GetInitialTasksToExecute() returns (tasks: seq<TaskID>)
      requires Valid() && Fresh()
      modifies this
      ensures Valid() && started && graph == old(graph) && done == old(done)
      ensures handedOut == old(handedOut) + tasks
      ensures NoDup(tasks) && Range(tasks) == Eligible(graph, [])
    {
      tasks := [];
      for k := 0 to |initialTasks|
        invariant tasks == initialTasks[..k] && executingTasks == k
        modifies this`executingTasks
      {
        executingTasks := executingTasks + 1;
        tasks := tasks + [initialTasks[k]];
      }
      assert tasks == initialTasks;
      started := true;
      handedOut := tasks;
    }

    /** The loop over one task's dependents: count each down, collect those that reach zero. */
    method CountDown(deps: seq<TaskID>) returns (released: seq<TaskID>)
      requires NoDup(deps) && forall d :: d in deps ==> d < |taskStates|
      modifies this`taskStates, this`executingTasks
      ensures CountedDown(old(taskStates), Range(deps), taskStates)
      ensures NoDup(released)
      ensures forall i :: i in released <==> i in deps && old(taskStates)[i].dependencyCount == 1
      ensures executingTasks == old(executingTasks) + |released|
    {
      ghost var before := taskStates;
      released := [];
      ghost var touched: set<TaskID> := {};
      for k := 0 to |deps|
        invariant touched == Range(deps[..k])
        invariant CountedDown(before, touched, taskStates)
        invariant executingTasks == old(executingTasks) + |released|
        invariant NoDup(released)
        invariant forall i :: i in released <==> i in touched && i < |before| && before[i].dependencyCount == 1
      {
        var d := deps[k];
        NextIsNew(deps, k);
        assert d in deps;
        taskStates := taskStates[d := taskStates[d].(dependencyCount := taskStates[d].dependencyCount - 1)];
        if taskStates[d].dependencyCount == 0 {
          executingTasks := executingTasks + 1;
          released := released + [d];
        }
        touched := touched + {d};
      }
      assert deps[..|deps|] == deps;
    }

    /** Report that t completed; the result is what the callback receives, in order. */
    method GetTasksToExecute(t: TaskID) returns (released: seq<TaskID>)
      requires Valid() && started
      requires t in handedOut && t !in done
      modifies this
      ensures Valid() && started && graph == old(graph)
      ensures done == old(done) + [t]
      ensures handedOut == old(handedOut) + released
      ensures Releases(graph, old(done), t, released)
    {
      ghost var g, before, initial, d, h := graph, taskStates, initialTasks, done, handedOut;
      HandedOutIsVertex(g, d, h, t);
      LinksOfTask(g, before, initial, t);
      executingTasks := executingTasks - 1;
      completedTasks := completedTasks + 1;
      released := CountDown(taskStates[t].dependentTasks);
      CompletionKeepsOrder(g, before, initial, d, h, t, taskStates, released);
      done := d + [t];
      handedOut := h + released;
    }

    method RestoreCounts()
      modifies this`taskStates
      ensures |taskStates| == |old(taskStates)|
      ensures forall i :: 0 <= i < |taskStates| ==>
        taskStates[i] == old(taskStates)[i].(dependencyCount := old(taskStates)[i].originalDependencyCount)
    {
      for k := 0 to |taskStates|
        invariant |taskStates| == |old(taskStates)|
        invariant forall i :: 0 <= i < |taskStates| ==>
          taskStates[i] == if i < k then old(taskStates)[i].(dependencyCount := old(taskStates)[i].originalDependencyCount)
                           else old(taskStates)[i]
      {
        taskStates := taskStates[k := taskStates[k].(dependencyCount := taskStates[k].originalDependencyCount)];
      }
    }

    /** Back to the freshly constructed state, whatever has run before. */
    method Reset()
      requires Valid()
      modifies this
      ensures Valid() && Fresh() && graph == old(graph) && initialTasks == old(initialTasks)
      ensures completedTasks == 0 && executingTasks == 0
      ensures |taskStates| == |old(taskStates)|
      ensures forall i :: 0 <= i < |taskStates| ==>
        taskStates[i] == old(taskStates)[i].(dependencyCount := |graph[i]|)
    {
      completedTasks := 0;
      executingTasks := 0;
      RestoreCounts();
      ResetCounts(graph, old(taskStates), initialTasks, taskStates);
      started := false;
      done := [];
      handedOut := [];
    }
  }

  lemma DoneSize(g: Graph, done: seq<TaskID>)
    requires TopoOrder(g, done)
    ensures |done| < |g| <==> exists v :: v in g && v !in done
  {
    ListsAllIffSameSize(g, done);
    RangeSize(done);
    forall i | 0 <= i < |done| ensures done[i] in g {
      assert DepsBefore(g, done, i);
    }
    SubsetSize(Range(done), g.Keys);
  }

  lemma DoneFits(g: Graph, done: seq<TaskID>)
    requires TopoOrder(g, done)
    ensures |done| <= |g|
  {
    DoneSize(g, done);
    if |done| > |g| {
      ListsAllIffSameSize(g, done);
    }
  }

  lemma VertexCount(vs: seq<BuilderVertex>)
    ensures |DepsOf(vs)| == |vs|
  {
    if vs != [] {
      var front := vs[..|vs| - 1];
      VertexCount(front);
      assert DepsOf(vs) == DepsOf(front)[|vs| - 1 := vs[|vs| - 1].vFrom];
    }
  }

  lemma NextIsNew(s: seq<TaskID>, k: nat)
    requires NoDup(s) && k < |s|
    ensures s[k] !in Range(s[..k]) && Range(s[..k + 1]) == Range(s[..k]) + {s[k]}
  {
    assert s[..k + 1] == s[..k] + [s[k]];
    RangeAppend(s[..k], s[k]);
  }

  lemma AppendDone(g: Graph, done: seq<TaskID>, t: TaskID)
    requires TopoOrder(g, done) && t !in done && t in Eligible(g, done)
    ensures TopoOrder(g, done + [t])
  {
    var order := done + [t];
    forall i | 0 <= i < |order| ensures DepsBefore(g, order, i) {
      if i < |done| {
        assert DepsBefore(g, done, i);
        assert order[..i] == done[..i];
      } else {
        assert order[..i] == done;
      }
    }
  }

  lemma OneLess(a: set<TaskID>, done: seq<TaskID>, t: TaskID)
    requires t !in done
    ensures |a - Range(done + [t])| == |a - Range(done)| - (if t in a then 1 else 0)
  {
    RangeAppend(done, t);
    if t in a {
      assert a - Range(done) == (a - Range(done + [t])) + {t};
    } else {
      assert a - Range(done + [t]) == a - Range(done);
    }
  }

  lemma NoneLeft(a: set<TaskID>, done: seq<TaskID>)
    ensures a <= Range(done) <==> |a - Range(done)| == 0
  {
    if a <= Range(done) {
      assert a - Range(done) == {};
    } else {
      var x :| x in a && x !in Range(done);
      assert x in a - Range(done);
    }
  }

  /** Rewriting counters leaves the fixed part of an order alone. */
  lemma DescribesAfter(g: Graph, before: seq<TaskState>, initial: seq<TaskID>, after: seq<TaskState>)
    requires Describes(g, before, initial) && |after| == |before|
    requires forall i :: 0 <= i < |before| ==>
      after[i].dependentTasks == before[i].dependentTasks && after[i].originalDependencyCount == before[i].originalDependencyCount
    ensures Describes(g, after, initial)
  {
    forall i | 0 <= i < |after| ensures LinksOf(g, after[i], i) {
      assert LinksOf(g, before[i], i);
    }
  }

  lemma ResetCounts(g: Graph, before: seq<TaskState>, initial: seq<TaskID>, after: seq<TaskState>)
    requires Describes(g, before, initial) && |after| == |before|
    requires forall i :: 0 <= i < |before| ==> after[i] == before[i].(dependencyCount := before[i].originalDependencyCount)
    ensures Describes(g, after, initial) && Counts(g, after, [])
    ensures TopoOrder(g, []) && Range<TaskID>([]) == {}
    ensures forall i :: 0 <= i < |after| ==> after[i] == before[i].(dependencyCount := |g[i]|)
  {
    DescribesAfter(g, before, initial, after);
    RestoredCounts(g, before, initial, after);
  }

  lemma RestoredCounts(g: Graph, before: seq<TaskState>, initial: seq<TaskID>, after: seq<TaskState>)
    requires Describes(g, before, initial) && |after| == |before|
    requires forall i :: 0 <= i < |before| ==> after[i] == before[i].(dependencyCount := before[i].originalDependencyCount)
    ensures Counts(g, after, [])
    ensures forall i :: 0 <= i < |after| ==> after[i] == before[i].(dependencyCount := |g[i]|)
  {
    forall i | 0 <= i < |after| ensures CountOf(g, after[i], [], i) && after[i].dependencyCount == |g[i]| {
      assert LinksOf(g, before[i], i);
      assert g[i] - Range([]) == g[i];
    }
  }

  ghost predicate BuiltFrom(v: BuilderVertex, st: TaskState) {
    && NoDup(st.dependentTasks) && Range(st.dependentTasks) == v.vTo
    && st.dependencyCount == st.originalDependencyCount == |v.vFrom|
  }

  /** What the constructor builds from the two edge sets of each vertex. */
  ghost predicate Built(vs: seq<BuilderVertex>, states: seq<TaskState>, initial: seq<TaskID>) {
    && |states| == |vs|
    && (forall i {:trigger BuiltFrom(vs[i], states[i])} :: 0 <= i < |vs| ==> BuiltFrom(vs[i], states[i]))
    && NoDup(initial) && forall i :: i in initial <==> 0 <= i < |vs| && vs[i].vFrom == {}
  }

  lemma BuiltStep(vs: seq<BuilderVertex>, states: seq<TaskState>, initial: seq<TaskID>, id: nat, deps: seq<TaskID>)
    requires id < |vs| && Built(vs[..id], states, initial)
    requires NoDup(deps) && Range(deps) == vs[id].vTo
    ensures Built(vs[..id + 1], states + [TaskState(deps, |vs[id].vFrom|, |vs[id].vFrom|)],
                  if |vs[id].vFrom| == 0 then initial + [id] else initial)
  {
    var states' := states + [TaskState(deps, |vs[id].vFrom|, |vs[id].vFrom|)];
    forall i | 0 <= i <= id ensures BuiltFrom(vs[..id + 1][i], states'[i]) {
      if i < id {
        assert BuiltFrom(vs[..id][i], states[i]);
      }
    }
    var initial' := if |vs[id].vFrom| == 0 then initial + [id] else initial;
    assert id !in initial;
    assert NoDup(initial');
    assert forall i :: i in initial' <==> 0 <= i < |vs[..id + 1]| && vs[..id + 1][i].vFrom == {};
  }

  lemma BuiltCounts(vs: seq<BuilderVertex>, states: seq<TaskState>, initial: seq<TaskID>)
    requires Built(vs, states, initial)
    ensures Counts(DepsOf(vs), states, [])
  {
    var g := DepsOf(vs);
    forall i | 0 <= i < |states| && i in g ensures CountOf(g, states[i], [], i) {
      assert BuiltFrom(vs[i], states[i]);
      assert g[i] - Range([]) == g[i];
    }
  }

  lemma BuiltDescribes(vs: seq<BuilderVertex>, states: seq<TaskState>, initial: seq<TaskID>)
    requires Inverse(vs) && Built(vs, states, initial)
    ensures Describes(DepsOf(vs), states, initial)
  {
    var g := DepsOf(vs);
    VertexCount(vs);
    forall i | 0 <= i < |states| ensures LinksOf(g, states[i], i) {
      assert BuiltFrom(vs[i], states[i]);
      forall v ensures v in vs[i].vTo <==> v in Dependents(g, i) {
        assert v in g ==> g[v] == vs[v].vFrom;
      }
    }
    forall v ensures v in Range(initial) <==> v in Eligible(g, []) {
      if v in g { assert g[v] <= Range([]) <==> g[v] == {}; }
    }
  }

  ghost predicate CountedDown(before: seq<TaskState>, touched: set<TaskID>, after: seq<TaskState>) {
    && |after| == |before|
    && forall i :: 0 <= i < |before| ==>
         after[i] == if i in touched then before[i].(dependencyCount := before[i].dependencyCount - 1) else before[i]
  }

  lemma CountsAfter(g: Graph, before: seq<TaskState>, initial: seq<TaskID>, done: seq<TaskID>, t: TaskID, after: seq<TaskState>)
    requires Describes(g, before, initial) && Counts(g, before, done)
    requires t in g && t !in done
    requires CountedDown(before, Range(before[t].dependentTasks), after)
    ensures Describes(g, after, initial) && Counts(g, after, done + [t])
  {
    DescribesAfter(g, before, initial, after);
    forall i | 0 <= i < |after| && i in g ensures CountOf(g, after[i], done + [t], i) {
      assert CountOf(g, before[i], done, i);
      LinksOfTask(g, before, initial, t);
      OneLess(g[i], done, t);
    }
  }

  /** One completion re-establishes every clause of a valid order. */
  lemma CompletionKeepsOrder(g: Graph, before: seq<TaskState>, initial: seq<TaskID>, done: seq<TaskID>,
                             handed: seq<TaskID>, t: TaskID, after: seq<TaskState>, released: seq<TaskID>)
    requires Describes(g, before, initial) && Counts(g, before, done)
    requires TopoOrder(g, done) && NoDup(handed) && Range(handed) == Eligible(g, done) && Range(done) <= Range(handed)
    requires t in handed && t in g && t !in done
    requires CountedDown(before, Range(before[t].dependentTasks), after)
    requires NoDup(released) && forall i :: i in released <==> i in before[t].dependentTasks && i < |before| && before[i].dependencyCount == 1
    ensures Describes(g, after, initial) && Counts(g, after, done + [t])
    ensures TopoOrder(g, done + [t])
    ensures Releases(g, done, t, released)
    ensures NoDup(handed + released) && Range(handed + released) == Eligible(g, done + [t])
    ensures Range(done + [t]) <= Range(handed + released)
  {
    CountsAfter(g, before, initial, done, t, after);
    ReleasedExactly(g, before, initial, done, t, released);
    assert t in Range(handed);
    AppendDone(g, done, t);
    HandedOutAfter(g, done, t, handed, released);
  }

  lemma ReleasedExactly(g: Graph, before: seq<TaskState>, initial: seq<TaskID>, done: seq<TaskID>, t: TaskID, released: seq<TaskID>)
    requires Describes(g, before, initial) && Counts(g, before, done)
    requires t in g && t !in done
    requires NoDup(released)
    requires forall i :: i in released <==> i in before[t].dependentTasks && i < |before| && before[i].dependencyCount == 1
    ensures Releases(g, done, t, released)
  {
    LinksOfTask(g, before, initial, t);
    forall i ensures i in released <==> i in Eligible(g, done + [t]) - Eligible(g, done) {
      if i in g {
        assert CountOf(g, before[i], done, i);
        OneLess(g[i], done, t);
        NoneLeft(g[i], done);
        NoneLeft(g[i], done + [t]);
      }
    }
  }

  lemma LinksOfTask(g: Graph, states: seq<TaskState>, initial: seq<TaskID>, t: TaskID)
    requires Describes(g, states, initial) && t in g
    ensures NoDup(states[t].dependentTasks)
    ensures forall d :: d in states[t].dependentTasks <==> d in g && t in g[d]
  {
    assert LinksOf(g, states[t], t);
    assert forall d :: d in states[t].dependentTasks <==> d in Range(states[t].dependentTasks);
  }

  lemma HandedOutIsVertex(g: Graph, done: seq<TaskID>, handed: seq<TaskID>, t: TaskID)
    requires Range(handed) == Eligible(g, done) && t in handed
    ensures t in g
  {
    assert t in Range(handed);
  }

  lemma HandedOutAfter(g: Graph, done: seq<TaskID>, t: TaskID, handed: seq<TaskID>, released: seq<TaskID>)
    requires NoDup(handed) && Range(handed) == Eligible(g, done)
    requires Range(done) <= Range(handed) && t in handed
    requires Releases(g, done, t, released)
    ensures NoDup(handed + released) && Range(handed + released) == Eligible(g, done + [t])
    ensures Range(done + [t]) <= Range(handed + released)
  {
    RangeAppend(done, t);
    assert Range(handed + released) == Range(handed) + Range(released);
    forall i, j | 0 <= i < |handed| && 0 <= j < |released| ensures handed[i] != released[j] {
      assert handed[i] in Range(handed) && released[j] in Range(released);
    }
  }

  /** With everything handed out also completed, nothing more can become eligible. */
  lemma QuiescentIsExhausted(g: Graph, done: seq<TaskID>)
    requires Eligible(g, done) <= Range(done)
    ensures Exhausted(g, done)
  {
    forall v | v in g && v !in done ensures AwaitsOutside(g, done, v) {
      assert v !in Range(done);
      assert v !in Eligible(g, done);
    }
  }
}
