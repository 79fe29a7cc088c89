/** Holder/StartupTaskManager: the shortest histories of a new executor in which the comments
    of the source are not met, carried out by its handlers. */
module StartupExamples {
  import opened StartupState
  import opened StartupNames
  import opened StartupReentry
  import opened StartupSteps
  import opened StartupBooks
  import opened StartupTaskManager
  import opened StartupRuns

  function Fresh(name: string): TaskDesc {
    TaskDesc(name, DepsUnknown, {}, {}, {}, {})
  }

  method OneTask(name: string) returns (e: StartupTaskExecutor)
    ensures fresh(e) && e.Valid() && e.stopWhenComplete && !e.stopRequested && e.localQueue == [] && e.waitingTasks == 1
    ensures !e.runsWhenReady(0) && !e.runsWhenReady(1)
    ensures e.taskStates == map[0 := Fresh(name)] && e.taskNameMap == map[name := Defined(0)] && e.told == {}
  {
    e := new StartupTaskExecutor(true, t => false);
    var ok := e.HandleDefineTask(0, name);
  }

  /** A name never seen before is not recorded, and with nothing recorded the task is ready. */
  lemma UnseenNameIsNoDependency(names: Names, a: Tasks, b: Tasks, runs: TaskID -> bool)
    requires names == map["a" := Defined(0)] && a == map[0 := Fresh("a")] && !runs(0)
    requires SetDependenciesTo(names, a, 0, {"b"}, b, runs, {})
    ensures 0 in b && b[0].state == Ready
    ensures "b" in RewiredNames(WithNewNames(names, {"b"}), 0, RecordedUndefined(names, {"b"}))
    ensures RewiredNames(WithNewNames(names, {"b"}), 0, RecordedUndefined(names, {"b"}))["b"].Pending?
  {
    assert "b"[0] != "a"[0];
    assert "b" !in names;
    assert RecordedIds(names, {"b"}) == {} && RecordedUndefined(names, {"b"}) == {};
    assert RewiredTasks(a, 0, {}, {})[0] == RewiredTask(a, 0, {}, {}, 0);
    assert "b" in Dropped(names, {"b"});
  }

  /** "a" asks for "b", which nobody has mentioned before, and is released at once. */
  method ReleasedTooEarly() returns (e: StartupTaskExecutor)
    ensures fresh(e) && e.Valid()
    ensures 0 in e.taskStates && e.taskStates[0].state == Ready
    ensures 0 in e.requested && e.requested[0] == {"b"}
    ensures "b" in e.taskNameMap && e.taskNameMap["b"].Pending?
  {
    e := OneTask("a");
    ghost var names, tasks := e.taskNameMap, e.taskStates;
    e.HandleSetDependencies(0, {"b"});
    UnseenNameIsNoDependency(names, tasks, e.taskStates, e.runsWhenReady);
  }

  // ----- failed and ready again -----

  method TwoNames() returns (e: StartupTaskExecutor)
    ensures e.stopWhenComplete && !e.stopRequested && e.localQueue == [] && e.waitingTasks == 2
    ensures fresh(e) && e.Valid() && !e.runsWhenReady(0) && !e.runsWhenReady(1)
    ensures e.taskStates == TwoTasks(DepsUnknown, {}, DepsUnknown, {}) && BothNames(e.taskNameMap) && e.told == {}
  {
    e := OneTask("d");
    SecondDefined(e.taskNameMap);
    var ok := e.HandleDefineTask(1, "s");
  }

  lemma TwoToGo(a: Tasks)
    requires a.Keys == {0, 1} && !Terminal(a[0].state) && !Terminal(a[1].state)
    ensures |NonTerminal(a)| == 2
  {
    assert NonTerminal(a) == {0, 1};
  }

  lemma AfterDependsOnD(names: Names, a: Tasks, c: Tasks, runs: TaskID -> bool)
    requires BothNames(names) && a == TwoTasks(DepsUnknown, {}, DepsUnknown, {})
    requires SetDependenciesTo(names, a, 1, {"d"}, c, runs, {})
    ensures c == TwoTasks(DepsUnknown, {1}, WaitingForDeps, {0}) && !FailsAtOnce(names, a, 1, {"d"})
  {
    DependsOnD(names);
  }

  lemma AfterDependsOnNothing(names: Names, a: Tasks, c: Tasks, runs: TaskID -> bool)
    requires a == TwoTasks(DepsUnknown, {1}, WaitingForDeps, {0}) && !runs(0)
    requires SetDependenciesTo(names, a, 0, {}, c, runs, {})
    ensures c == TwoTasks(Ready, {1}, WaitingForDeps, {0}) && !FailsAtOnce(names, a, 0, {})
  {
    DependsOnNothing(names);
  }

  method WaitForD(e: StartupTaskExecutor)
    requires e.Valid() && e.taskStates == TwoTasks(DepsUnknown, {}, DepsUnknown, {}) && BothNames(e.taskNameMap) && e.told == {}
    modifies e
    ensures e.Valid() && e.taskStates == TwoTasks(DepsUnknown, {1}, WaitingForDeps, {0}) && e.told == {}
    ensures e.waitingTasks == old(e.waitingTasks) && Untouched(e)
  {
    ghost var names, tasks := e.taskNameMap, e.taskStates;
    assert Settable(tasks[1].state);
    e.HandleSetDependencies(1, {"d"});
    AfterDependsOnD(names, tasks, e.taskStates, e.runsWhenReady);
  }

  method WaitForNothing(e: StartupTaskExecutor)
    requires e.Valid() && e.taskStates == TwoTasks(DepsUnknown, {1}, WaitingForDeps, {0}) && e.told == {} && !e.runsWhenReady(0)
    modifies e
    ensures e.Valid() && e.taskStates == TwoTasks(Ready, {1}, WaitingForDeps, {0}) && e.told == {}
    ensures e.waitingTasks == old(e.waitingTasks) && Untouched(e)
  {
    ghost var names, tasks := e.taskNameMap, e.taskStates;
    assert Settable(tasks[0].state);
    e.HandleSetDependencies(0, {});
    AfterDependsOnNothing(names, tasks, e.taskStates, e.runsWhenReady);
  }

  /** What handlers leave alone. */
  twostate predicate Untouched(e: StartupTaskExecutor) reads e {
    e.stopRequested == old(e.stopRequested) && e.localQueue == old(e.localQueue)
  }

  method WaitingOnReady() returns (e: StartupTaskExecutor)
    ensures e.stopWhenComplete && !e.stopRequested && e.localQueue == [] && e.waitingTasks == 2
    ensures fresh(e) && e.Valid() && !e.runsWhenReady(1)
    ensures e.taskStates == TwoTasks(Ready, {1}, WaitingForDeps, {0}) && e.told == {}
  {
    e := TwoNames();
    WaitForD(e);
    WaitForNothing(e);
  }

  lemma AfterRunning(a: Tasks)
    requires a == TwoTasks(Ready, {1}, WaitingForDeps, {0})
    ensures a[0 := a[0].(state := Running)] == TwoTasks(Running, {1}, WaitingForDeps, {0})
  {
  }

  /** Task 1 waits for task 0, which is running. */
  method WaitingOnRunning() returns (e: StartupTaskExecutor)
    ensures e.stopWhenComplete && !e.stopRequested && e.localQueue == [] && e.waitingTasks == 2
    ensures fresh(e) && e.Valid() && !e.runsWhenReady(1)
    ensures e.taskStates == TwoTasks(Running, {1}, WaitingForDeps, {0}) && e.told == {}
  {
    e := WaitingOnReady();
    AfterRunning(e.taskStates);
    e.HandleRunTask(0);
  }

  lemma FailedThenReady(a: Tasks, b: Tasks, c: Tasks, runs: TaskID -> bool)
    requires a == TwoTasks(Running, {1}, WaitingForDeps, {0}) && FailsTo(a, 1, b, {})
    ensures b.Keys == {0, 1} && b[0].state == Running && b[1].state == Failed
    ensures CompletesTo(b, 0, c, runs) && !runs(1) ==> 1 in c && c[1].state == Ready
  {
    var a1 := a[1 := a[1].(state := Failed)];
    FailsToShape(a, 1, b, {});
    assert SameTask(a[0], b[0]) && SameTask(a[1], b[1]);
    assert b[0].state == a1[0].state;
    if CompletesTo(b, 0, c, runs) && !runs(1) {
      var b1 := b[0 := b[0].(state := Completed)];
      assert AllDone(b1, 1) && 1 in b[0].dependedOnBy && b.Keys == c.Keys;
    }
  }

  method FailWaiting(e: StartupTaskExecutor)
    requires e.Valid() && e.taskStates == TwoTasks(Running, {1}, WaitingForDeps, {0}) && e.told == {}
    modifies e
    ensures e.Valid() && FailsTo(old(e.taskStates), 1, e.taskStates, {})
    ensures e.waitingTasks == old(e.waitingTasks) - 1 && Untouched(e)
  {
    e.HandleCompleteTask(1, false);
    TwoToGo(old(e.taskStates));
    FailedThenReady(old(e.taskStates), e.taskStates, e.taskStates, e.runsWhenReady);
    OneToGo(e.taskStates);
  }

  method CompleteDependency(e: StartupTaskExecutor, ghost a: Tasks)
    requires e.Valid() && a == TwoTasks(Running, {1}, WaitingForDeps, {0}) && FailsTo(a, 1, e.taskStates, {}) && !e.runsWhenReady(1)
    modifies e
    ensures e.Valid() && 1 in e.taskStates && e.taskStates[1].state == Ready
    ensures e.waitingTasks == old(e.waitingTasks) - 1 && Untouched(e)
  {
    FailedThenReady(a, e.taskStates, e.taskStates, e.runsWhenReady);
    e.HandleCompleteTask(0, true);
    FailedThenReady(a, old(e.taskStates), e.taskStates, e.runsWhenReady);
  }

  /** A request fails task 1 while it waits; then task 0 completes, and task 1 is ready. */
  method FailedAndReadyAgain() returns (e: StartupTaskExecutor, between: TaskState)
    ensures fresh(e) && e.Valid()
    ensures between == Failed && 1 in e.taskStates && e.taskStates[1].state == Ready
    ensures e.stopWhenComplete && !e.stopRequested && e.localQueue == [] && e.waitingTasks == 0
  {
    e := WaitingOnRunning();
    ghost var a := e.taskStates;
    FailWaiting(e);
    FailedThenReady(a, e.taskStates, e.taskStates, e.runsWhenReady);
    between := e.taskStates[1].state;
    CompleteDependency(e, a);
  }

  lemma OneToGo(b: Tasks)
    requires b.Keys == {0, 1} && b[0].state == Running && b[1].state == Failed
    ensures |NonTerminal(b)| == 1
  {
    assert NonTerminal(b) == {0};
  }

  /** The counter has reached zero twice too early: the executor ends with task 1 ready. */
  method EndsWithATaskReady() returns (e: StartupTaskExecutor, result: ExecutionState)
    ensures fresh(e) && e.Valid()
    ensures result == End && 1 in e.taskStates && e.taskStates[1].state == Ready
  {
    var between;
    e, between := FailedAndReadyAgain();
    var swapped;
    ghost var events, books;
    result, swapped, events, books := e.Run([], []);
    assert e.AsBook() == books[0];
  }

  /** A queue without requests to fail a task: everything is in turn, whatever flags are set. */
  method RunInTurn(e: StartupTaskExecutor, incoming: seq<Action>, marks: seq<set<TaskID>>) returns (result: ExecutionState)
    requires e.Valid() && e.Disciplined() && FreshDefinitions(incoming, e.taskStates.Keys) && |marks| == |incoming|
    requires forall i :: 0 <= i < |incoming| ==> !(incoming[i].CompleteTask? && !incoming[i].success)
    modifies e
    ensures e.Valid() && e.Disciplined()
    ensures KeepsCompleted(old(e.taskStates), e.taskStates) && KeepsFailed(old(e.taskStates), e.taskStates)
    ensures result == End && !old(e.stopRequested) ==> forall t :: t in e.taskStates ==> Terminal(e.taskStates[t].state)
  {
    var swapped;
    ghost var events, books;
    result, swapped, events, books := e.Run(incoming, marks);
    NoFailureIsInTurn(books, events);
  }

  // ----- a listener entered twice -----

  /** Task 1 waits for task 0 and for itself. */
  function OnItself(state0: TaskState): Tasks {
    map[0 := TaskDesc("d", state0, {}, {}, {1}, {}), 1 := TaskDesc("s", WaitingForDeps, {}, {0, 1}, {1}, {})]
  }

  lemma BothRecorded(names: Names)
    requires BothNames(names)
    ensures RecordedIds(names, {"d", "s"}) == {0, 1} && RecordedUndefined(names, {"d", "s"}) == {}
  {
    var s := {"d", "s"};
    assert "d" in s && "s" in s;
    assert names["d"].taskId in RecordedIds(names, s) && names["s"].taskId in RecordedIds(names, s);
  }

  lemma AfterDependsOnBoth(names: Names, a: Tasks, c: Tasks, runs: TaskID -> bool)
    requires BothNames(names) && a == TwoTasks(DepsUnknown, {}, DepsUnknown, {})
    requires SetDependenciesTo(names, a, 1, {"d", "s"}, c, runs, {})
    ensures c == OnItself(DepsUnknown) && !FailsAtOnce(names, a, 1, {"d", "s"})
  {
    BothRecorded(names);
    assert Toggled({}, 1, true) == {1};
    var b := RewiredTasks(a, 1, {0, 1}, {});
    assert b == OnItself(DepsUnknown);
    assert 0 in b[1].dependsOn && b[0].state == DepsUnknown;
  }

  lemma AfterDependencyIsReady(names: Names, a: Tasks, c: Tasks, runs: TaskID -> bool)
    requires a == OnItself(DepsUnknown) && !runs(0)
    requires SetDependenciesTo(names, a, 0, {}, c, runs, {})
    ensures c == OnItself(Ready) && !FailsAtOnce(names, a, 0, {})
  {
    assert RecordedIds(names, {}) == {} && RecordedUndefined(names, {}) == {};
    assert Toggled({1}, 0, false) == {1};
    var b := RewiredTasks(a, 0, {}, {});
    assert b == OnItself(WaitingForDeps);
    assert b[0 := b[0].(state := Ready)] == OnItself(Ready);
  }

  lemma ItselfIsACycle(a: Tasks)
    requires a == OnItself(Ready)
    ensures DoomedCycle(a, 0, {})
  {
    var a1 := FailedIn(a, 0);
    WaitsForSelf(a1, 1, {});
    assert 1 in a1[1].dependedOnBy && 1 in a1[0].dependedOnBy;
    assert WaitsForItself(a1, 1, {}) && Doomed(a1, 1, 0, {});
  }

  method ItselfUnknown() returns (e: StartupTaskExecutor)
    ensures fresh(e) && e.Valid() && !e.runsWhenReady(0) && e.taskStates == OnItself(DepsUnknown) && e.told == {}
  {
    e := TwoNames();
    ghost var names, tasks := e.taskNameMap, e.taskStates;
    e.HandleSetDependencies(1, {"d", "s"});
    AfterDependsOnBoth(names, tasks, e.taskStates, e.runsWhenReady);
  }

  method ItselfReady() returns (e: StartupTaskExecutor)
    ensures fresh(e) && e.Valid() && e.taskStates == OnItself(Ready) && e.told == {}
  {
    e := ItselfUnknown();
    ghost var names, tasks := e.taskNameMap, e.taskStates;
    e.HandleSetDependencies(0, {});
    AfterDependencyIsReady(names, tasks, e.taskStates, e.runsWhenReady);
  }

  /** When task 0 fails, the listener of task 1 is called while it is on the call stack. */
  method ListenerEnteredTwice() returns (e: StartupTaskExecutor)
    ensures fresh(e) && e.Valid() && e.reentered
  {
    e := ItselfReady();
    ItselfIsACycle(e.taskStates);
    e.HandleCompleteTask(0, false);
  }
}
