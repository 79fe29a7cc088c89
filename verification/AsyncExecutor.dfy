/** AsyncTasks/AsyncExecutor: one ExecuteGraph call, seen from TaskContext::RunAllTasks.
    The workers are an arbitrary scheduler: it decides, knowing which posted tasks are
    unfinished, which of them are reported complete next, in which order and how many at once. */
module AsyncExecutor {
  import opened Collections
  import opened Graphs
  import opened TaskGraph

  datatype TaskResult = ExecutionComplete | UnableToProgress

  /** Given the wait number and the posted unfinished tasks, the next non-empty completion batch. */
  type Scheduler = (nat, set<TaskID>) -> seq<TaskID>

  ghost predicate IsBatch(batch: seq<TaskID>, posted: set<TaskID>) {
    batch != [] && NoDup(batch) && Range(batch) <= posted
  }

  /** Whenever something is posted and unfinished, some completion eventually arrives. */
  ghost predicate Responsive(choose: Scheduler) {
    forall k: nat, posted: set<TaskID> :: posted != {} ==> IsBatch(choose(k, posted), posted)
  }

  /** Every handed-out, uncompleted task is in exactly one place: waiting to be posted,
      with the workers, or in the completion queue being drained. */
  ghost predicate Accounted(order: AsyncGraphOrder, taskList: seq<TaskID>, posted: set<TaskID>, queue: seq<TaskID>)
    reads order
  {
    && order.Valid() && order.started
    && AccountedFor(order.handedOut, order.done, taskList, posted, queue)
  }

  ghost predicate AccountedFor(handed: seq<TaskID>, done: seq<TaskID>, taskList: seq<TaskID>, posted: set<TaskID>, queue: seq<TaskID>) {
    && NoDup(taskList) && NoDup(queue)
    && Range(taskList) !! posted && Range(queue) !! posted && Range(queue) !! Range(taskList)
    && Range(taskList) + posted + Range(queue) == Range(handed) - Range(done)
  }

  method RunAllTasks(graph: AsyncGraphOrder, choose: Scheduler) returns (result: TaskResult, ghost batches: seq<seq<TaskID>>)
    requires graph.Valid() && graph.Fresh() && Responsive(choose)
    modifies graph
    ensures graph.Valid() && graph.graph == old(graph.graph)
    ensures result == ExecutionComplete <==> Acyclic(graph.graph)
    ensures forall v :: v in graph.graph ==> (v in graph.done <==> !Blocked(graph.graph, v))
    ensures Range(graph.handedOut) == Range(graph.done)
    ensures Flatten(batches) == graph.done
  {
    var pendingTasks: int := 0;
    var wait := 0;
    var posted: set<TaskID> := {};   // with the workers, not yet reported
    batches := [];

    var taskList := graph.GetInitialTasksToExecute();
    pendingTasks := pendingTasks + |taskList|;

    while pendingTasks != 0
      invariant graph.graph == old(graph.graph)
      invariant Accounted(graph, taskList, posted, [])
      invariant pendingTasks == |posted| + |taskList|
      invariant Flatten(batches) == graph.done
      decreases |graph.graph| - |graph.done|
    {
      ghost var batch;
      taskList, posted, pendingTasks, batch := RunRound(graph, choose, wait, taskList, posted, pendingTasks);
      wait := wait + 1;
      FlattenAppend(batches, batch);
      batches := batches + [batch];
    }
    result := Verdict(graph);
  }

  /** One pass of the loop: post the task list, wait for a batch, drain it. */
  method RunRound(graph: AsyncGraphOrder, choose: Scheduler, wait: nat, toPost: seq<TaskID>, before: set<TaskID>, pending: int)
    returns (taskList: seq<TaskID>, posted: set<TaskID>, pendingTasks: int, ghost batch: seq<TaskID>)
    requires Responsive(choose)
    requires Accounted(graph, toPost, before, []) && pending == |before| + |toPost| != 0
    modifies graph
    ensures Accounted(graph, taskList, posted, []) && pendingTasks == |posted| + |taskList|
    ensures graph.graph == old(graph.graph) && graph.done == old(graph.done) + batch
    ensures |old(graph.done)| < |graph.done| <= |graph.graph|
  {
    PostAll(graph.handedOut, graph.done, toPost, before);
    posted := before + Range(toPost);
    taskList := [];

    var completionQueue := choose(wait, posted);
    batch := completionQueue;
    pendingTasks := pending - |completionQueue|;
    TakeBatch(graph.handedOut, graph.done, posted, completionQueue);
    posted := posted - Range(completionQueue);

    taskList := DrainCompletions(graph, completionQueue, posted);
    pendingTasks := pendingTasks + |taskList|;
    DoneFits(graph.graph, graph.done);
  }

  method Verdict(graph: AsyncGraphOrder) returns (result: TaskResult)
    requires Accounted(graph, [], {}, [])
    ensures result == ExecutionComplete <==> Acyclic(graph.graph)
    ensures forall v :: v in graph.graph ==> (v in graph.done <==> !Blocked(graph.graph, v))
    ensures Range(graph.handedOut) == Range(graph.done)
  {
    VerdictIsExact(graph.graph, graph.handedOut, graph.done);
    var more := graph.HasUnexecutedTasks();
    result := if !more then ExecutionComplete else UnableToProgress;
  }

  /** With nothing outstanding, the completed tasks are exactly those that reach no cycle. */
  lemma VerdictIsExact(g: Graph, handed: seq<TaskID>, done: seq<TaskID>)
    requires Closed(g) && TopoOrder(g, done)
    requires Range(handed) == Eligible(g, done) && Range(done) <= Range(handed)
    requires AccountedFor(handed, done, [], {}, [])
    ensures Range(handed) == Range(done)
    ensures forall v :: v in g ==> (v in done <==> !Blocked(g, v))
    ensures (exists v :: v in g && v !in done) <==> !Acyclic(g)
  {
    forall v | v in Range(handed) ensures v in Range(done) {
      assert v in Range(done) || v in Range(handed) - Range(done);
    }
    QuiescentIsExhausted(g, done);
    ExhaustedOrderIsExact(g, done);
    ExhaustedIsCompleteIffAcyclic(g, done);
    DoneSize(g, done);
    DoneFits(g, done);
  }

  /** The inner loop: feed each completion to the graph and collect what it releases. */
  method DrainCompletions(graph: AsyncGraphOrder, batch: seq<TaskID>, ghost posted: set<TaskID>) returns (taskList: seq<TaskID>)
    requires Accounted(graph, [], posted, batch)
    modifies graph
    ensures Accounted(graph, taskList, posted, [])
    ensures graph.graph == old(graph.graph) && graph.done == old(graph.done) + batch
  {
    var completionQueue := batch;
    taskList := [];
    while completionQueue != []
      invariant Accounted(graph, taskList, posted, completionQueue)
      invariant graph.graph == old(graph.graph)
      invariant graph.done + completionQueue == old(graph.done) + batch
      decreases |completionQueue|
    {
      var t := completionQueue[0];
      OutstandingIsHandedOut(graph.handedOut, graph.done, taskList, posted, completionQueue);
      ghost var done, handed := graph.done, graph.handedOut;
      var released := graph.GetTasksToExecute(t);
      ReleaseKeepsAccounts(graph.graph, done, handed, t, released, taskList, posted, completionQueue);
      taskList := taskList + released;
      completionQueue := completionQueue[1..];
    }
  }

  ghost function Flatten(batches: seq<seq<TaskID>>): seq<TaskID> {
    if batches == [] then [] else Flatten(batches[..|batches| - 1]) + batches[|batches| - 1]
  }

  lemma FlattenAppend(batches: seq<seq<TaskID>>, batch: seq<TaskID>)
    ensures Flatten(batches + [batch]) == Flatten(batches) + batch
  {
    assert (batches + [batch])[..|batches|] == batches;
  }

  lemma PostAll(handed: seq<TaskID>, done: seq<TaskID>, taskList: seq<TaskID>, posted: set<TaskID>)
    requires AccountedFor(handed, done, taskList, posted, [])
    ensures AccountedFor(handed, done, [], posted + Range(taskList), [])
    ensures |posted + Range(taskList)| == |posted| + |taskList|
  {
    RangeSize(taskList);
  }

  lemma TakeBatch(handed: seq<TaskID>, done: seq<TaskID>, posted: set<TaskID>, batch: seq<TaskID>)
    requires AccountedFor(handed, done, [], posted, []) && IsBatch(batch, posted)
    ensures AccountedFor(handed, done, [], posted - Range(batch), batch)
    ensures |posted - Range(batch)| == |posted| - |batch|
  {
    RangeSize(batch);
  }

  lemma OutstandingIsHandedOut(handed: seq<TaskID>, done: seq<TaskID>, taskList: seq<TaskID>, posted: set<TaskID>, queue: seq<TaskID>)
    requires AccountedFor(handed, done, taskList, posted, queue) && queue != []
    ensures queue[0] in handed && queue[0] !in done
  {
    assert queue[0] in Range(queue);
    assert queue[0] in Range(handed) && queue[0] !in Range(done);
  }

  lemma ReleaseKeepsAccounts(g: Graph, done: seq<TaskID>, handed: seq<TaskID>, t: TaskID, released: seq<TaskID>,
                             taskList: seq<TaskID>, posted: set<TaskID>, queue: seq<TaskID>)
    requires Range(handed) == Eligible(g, done) && Range(done) <= Range(handed) && Releases(g, done, t, released)
    requires AccountedFor(handed, done, taskList, posted, queue) && queue != [] && queue[0] == t
    ensures AccountedFor(handed + released, done + [t], taskList + released, posted, queue[1..])
  {
    assert Range(queue) == {t} + Range(queue[1..]);
    assert Range(taskList + released) == Range(taskList) + Range(released);
    assert Range(handed + released) == Range(handed) + Range(released);
    RangeAppend(done, t);
    assert t in Range(queue);
    forall i, j | 0 <= i < |taskList| && 0 <= j < |released| ensures taskList[i] != released[j] {
      assert taskList[i] in Range(taskList) && released[j] in Range(released);
    }
  }
}
