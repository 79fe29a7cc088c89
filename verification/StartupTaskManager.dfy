/** Holder/StartupTaskManager: the executor that owns the startup tasks. Its handlers call the
    listeners, which call straight back into the handlers; the listener behaves like
    Holder/BaseService: it may run its task when told it is ready, and fails it when told that
    a dependency failed, unless its failed-startup flag is set. The flag is set then, or from
    outside. A listener that is called a second time before it has returned locks a mutex that
    its thread holds already; reentered says whether that has happened. */
module StartupTaskManager {
  import opened StartupState
  import opened StartupNames
  import opened StartupReentry
  import opened StartupSteps
  import opened StartupBooks
  import opened StartupLife

  datatype ExecutionState = Suspend | End | Threw

  class StartupTaskExecutor {
    var taskNameMap: Names
    var taskStates: Tasks
    var waitingTasks: int
    const stopWhenComplete: bool
    var stopRequested: bool
    var localQueue: seq<Action>          // its back holds the oldest action
    var told: set<TaskID>                // listeners whose failed-startup flag is set
    const runsWhenReady: TaskID -> bool  // whether OnTaskReady calls RunTask
    ghost var readyLog: seq<TaskID>      // calls of OnTaskReady
    ghost var byRequest: set<TaskID>     // tasks failed by a request, not by their listeners
    ghost var reentered: bool            // whether a listener was entered while on the call stack
    ghost var requested: map<TaskID, set<string>>
    ghost var dropped: map<TaskID, set<string>>

    constructor (stopWhenComplete: bool, runsWhenReady: TaskID -> bool)
      ensures Valid() && Disciplined()
      ensures taskNameMap == map[] && taskStates == map[] && told == {} && !reentered
      ensures this.stopWhenComplete == stopWhenComplete && this.runsWhenReady == runsWhenReady && !stopRequested
      ensures waitingTasks == 0 && readyLog == [] && localQueue == []
    {
      taskNameMap, taskStates, waitingTasks := map[], map[], 0;
      this.stopWhenComplete, stopRequested := stopWhenComplete, false;
      localQueue, told := [], {};
      this.runsWhenReady := runsWhenReady;
      readyLog, byRequest, reentered := [], {}, false;
      requested, dropped := map[], map[];
    }

    /** Between actions, whatever the callers and listeners do. */
    ghost predicate Valid() reads this {
      Consistent(taskNameMap, taskStates, told, byRequest, requested, dropped)
    }

    /** What holds as long as nobody fails a waiting task that has no failed dependency. */
    ghost predicate Disciplined() reads this {
      Orderly(taskStates, readyLog, waitingTasks)
    }

    ghost function Slack(): int reads this {
      waitingTasks - |NonTerminal(taskStates)|
    }

    /** In the middle of an action. held: the listeners on the call stack; until one of them
        is entered again, each has a failure that is not entered as reported. */
    ghost predicate Steady(ctx: Context, held: set<TaskID>) reads this {
      Mid(taskStates) && Flags(taskStates, told, ctx) && (!reentered ==> HeldOk(taskStates, held))
    }

    method EvaluateDependencies(id: TaskID, ghost ctx: Context, ghost held: set<TaskID>)
      requires id in taskStates && Steady(ctx, held)
      requires taskStates[id].state == WaitingForDeps || taskStates[id].state == Failed
      requires HasFailedDep(taskStates, id) || held == {}
      modifies this`taskStates, this`told, this`waitingTasks, this`readyLog, this`reentered
      ensures Steady(ctx, held)
      ensures HasFailedDep(old(taskStates), id) ==>
        && Cascade(old(taskStates), taskStates, {id}, ctx.silent) && (taskStates[id].state == Failed || id in ctx.silent)
        && Slack() == old(Slack()) && readyLog == old(readyLog)
        && (reentered <==> old(reentered) || Reenters(old(taskStates), id, held, ctx.silent))
      ensures !HasFailedDep(old(taskStates), id) ==>
        && taskStates == (if AllDone(old(taskStates), id)
                          then old(taskStates)[id := old(taskStates)[id].(state := ReadyState(runsWhenReady, id))]
                          else old(taskStates))
        && readyLog == old(readyLog) + (if AllDone(old(taskStates), id) then [id] else [])
        && told == old(told) && waitingTasks == old(waitingTasks) && reentered == old(reentered)
      decreases 0, |NonTerminal(taskStates)|, 5
    {
      var nComplete := ScanDependencies(id, ctx, held);
      ReadyIff(old(taskStates), taskStates, id, nComplete, ctx.silent);
      if nComplete == |taskStates[id].dependsOn| && taskStates[id].dependsOnUndefined == {} {
        MarkReady(id, ctx);
      }
    }

    /** The loop over the dependencies: count the completed ones, report new failures. */
    method ScanDependencies(id: TaskID, ghost ctx: Context, ghost held: set<TaskID>) returns (nComplete: nat)
      requires id in taskStates && Steady(ctx, held)
      requires taskStates[id].state == WaitingForDeps || taskStates[id].state == Failed
      modifies this`taskStates, this`told, this`waitingTasks, this`readyLog, this`reentered
      ensures Steady(ctx, held) && Cascade(old(taskStates), taskStates, {id}, ctx.silent)
      ensures nComplete == |CompletedIn(old(taskStates), old(taskStates)[id].dependsOn)|
      ensures HasFailedDep(old(taskStates), id) ==>
        Called(old(taskStates), taskStates, id, held, ctx.silent, old(reentered), reentered)
      ensures !HasFailedDep(old(taskStates), id) ==> unchanged(this`taskStates, this`told, this`waitingTasks, this`reentered)
      ensures Slack() == old(Slack()) && readyLog == old(readyLog)
      decreases 0, |NonTerminal(taskStates)|, 4
    {
      ghost var before := taskStates;
      nComplete := 0;
      var rest := taskStates[id].dependsOn;
      ghost var quiet := true;
      CascadeNothing(before, before, {id}, ctx.silent);
      while rest != {}
        invariant rest <= before[id].dependsOn
        invariant id in taskStates && Steady(ctx, held) && Cascade(before, taskStates, {id}, ctx.silent)
        invariant taskStates[id].state == WaitingForDeps || taskStates[id].state == Failed
        invariant Slack() == old(Slack()) && readyLog == old(readyLog)
        invariant nComplete + |CompletedIn(before, rest)| == |CompletedIn(before, before[id].dependsOn)|
        invariant quiet ==> unchanged(this`taskStates, this`told, this`waitingTasks, this`reentered)
        invariant quiet ==> forall d :: d in before[id].dependsOn ==> d in rest || !NewFailure(before, id, d)
        invariant !quiet ==> HasFailedDep(before, id) && Called(before, taskStates, id, held, ctx.silent, old(reentered), reentered)
        decreases rest
      {
        var dep :| dep in rest;
        SplitRest(before, id, rest, dep);
        NonTerminalShrinks(before, taskStates, {id}, ctx.silent);
        var completed := ScanOne(id, dep, ctx, held, before, quiet, old(reentered));
        if completed {
          nComplete := nComplete + 1;
        }
        quiet := quiet && !NewFailure(before, id, dep);
        rest := rest - {dep};
      }
      if quiet && HasFailedDep(before, id) {
        NothingToReport(before, id, told, ctx, held);
      }
    }

    /** quiet: the scan has not called the listener yet. */
    method ScanOne(id: TaskID, dep: TaskID, ghost ctx: Context, ghost held: set<TaskID>,
                   ghost before: Tasks, ghost quiet: bool, ghost entered: bool) returns (completed: bool)
      requires id in taskStates && id in before && dep in before[id].dependsOn && Edges(before)
      requires Steady(ctx, held) && Cascade(before, taskStates, {id}, ctx.silent)
      requires taskStates[id].state == WaitingForDeps || taskStates[id].state == Failed
      requires quiet ==> taskStates == before && reentered == entered
      requires !quiet ==> Called(before, taskStates, id, held, ctx.silent, entered, reentered)
      modifies this`taskStates, this`told, this`waitingTasks, this`readyLog, this`reentered
      ensures id in taskStates && Steady(ctx, held) && Cascade(before, taskStates, {id}, ctx.silent)
      ensures dep in before && (completed <==> before[dep].state == Completed)
      ensures taskStates[id].state == WaitingForDeps || taskStates[id].state == Failed
      ensures quiet && !NewFailure(before, id, dep) ==> unchanged(this`taskStates, this`told, this`waitingTasks, this`reentered)
      ensures !(quiet && !NewFailure(before, id, dep)) ==> Called(before, taskStates, id, held, ctx.silent, entered, reentered)
      ensures Slack() == old(Slack()) && readyLog == old(readyLog)
      decreases 0, |NonTerminal(taskStates)|, 3
    {
      BeforeReport(before, taskStates, id, dep, ctx.silent);
      completed := taskStates[dep].state == Completed;
      if !completed && taskStates[dep].state == Failed && dep !in taskStates[id].failuresReported {
        ReportFailure(id, dep, ctx, held, before, quiet, entered);
      }
    }

    method ReportFailure(id: TaskID, dep: TaskID, ghost ctx: Context, ghost held: set<TaskID>,
                         ghost before: Tasks, ghost quiet: bool, ghost entered: bool)
      requires NewFailure(taskStates, id, dep)
      requires Steady(ctx, held) && Cascade(before, taskStates, {id}, ctx.silent)
      requires taskStates[id].state == WaitingForDeps || taskStates[id].state == Failed
      requires quiet ==> taskStates == before && reentered == entered
      requires !quiet ==> Called(before, taskStates, id, held, ctx.silent, entered, reentered)
      modifies this`taskStates, this`told, this`waitingTasks, this`readyLog, this`reentered
      ensures Steady(ctx, held) && Cascade(before, taskStates, {id}, ctx.silent)
      ensures Called(before, taskStates, id, held, ctx.silent, entered, reentered)
      ensures taskStates[id].state == WaitingForDeps || taskStates[id].state == Failed
      ensures Slack() == old(Slack()) && readyLog == old(readyLog)
      decreases 0, |NonTerminal(taskStates)|, 2
    {
      OnDependencyFailed(id, ctx, held);
      AfterCall(before, old(taskStates), taskStates, id, held, ctx.silent, quiet, entered, old(reentered), reentered);
      Report(id, dep, ctx, held, before, old(taskStates), entered);
    }

    method Report(id: TaskID, dep: TaskID, ghost ctx: Context, ghost held: set<TaskID>, ghost before: Tasks, ghost b: Tasks, ghost entered: bool)
      requires Steady(ctx, held) && Cascade(before, b, {id}, ctx.silent) && Cascade(b, taskStates, {id}, ctx.silent)
      requires Called(before, taskStates, id, held, ctx.silent, entered, reentered)
      modifies this`taskStates
      ensures Steady(ctx, held) && Cascade(before, taskStates, {id}, ctx.silent)
      ensures taskStates == Reported(old(taskStates), id, dep) && |NonTerminal(taskStates)| == |NonTerminal(old(taskStates))|
      ensures Called(before, taskStates, id, held, ctx.silent, entered, reentered)
    {
      ReportedKeeps(before, b, taskStates, id, dep, ctx.silent);
      ReportedFlags(taskStates, id, dep, told, ctx);
      if !reentered { ReportedHeld(taskStates, id, dep, held); }
      taskStates := taskStates[id := taskStates[id].(failuresReported := taskStates[id].failuresReported + {dep})];
    }

    /** BaseService's listener: fail my own task, unless my flag is set. The listener's mutex is
        held until the call returns. */
    method OnDependencyFailed(id: TaskID, ghost ctx: Context, ghost held: set<TaskID>)
      requires id in taskStates && Steady(ctx, held) && Unreported(taskStates, id)
      requires taskStates[id].state == WaitingForDeps || taskStates[id].state == Failed
      modifies this`taskStates, this`told, this`waitingTasks, this`readyLog, this`reentered
      ensures Steady(ctx, held)
      ensures Cascade(old(taskStates), taskStates, {id}, ctx.silent)
      ensures id in taskStates && (taskStates[id].state == Failed || id in ctx.silent)
      ensures taskStates[id].state == WaitingForDeps || taskStates[id].state == Failed
      ensures reentered <==> old(reentered) || Reenters(old(taskStates), id, held, ctx.silent)
      ensures Slack() == old(Slack()) && readyLog == old(readyLog)
      decreases 0, |NonTerminal(taskStates)|, 1
    {
      ghost var a := taskStates;
      assert FlagOk(a[id], id, told, ctx);
      CascadeNothing(a, a, {id}, ctx.silent);
      reentered := reentered || id in held;
      if id in told {
        NothingToFail(a, id, held, ctx.silent);
      } else {
        told := told + {id};
        TellListener(a, id, old(told), ctx, held);
        FailTask(id, ctx, held + {id});
        if a[id].state == WaitingForDeps {
          ListenerReturns(a, id, taskStates, held, ctx.silent);
        } else {
          NothingToFail(a, id, held, ctx.silent);
        }
      }
    }

    /** HandleAction(CompleteTaskAction) without success. */
    method FailTask(id: TaskID, ghost ctx: Context, ghost held: set<TaskID>)
      requires id in taskStates && Mid(taskStates)
      requires Failable(taskStates[id].state) ==>
        && FlagsBut(taskStates, told, ctx, id) && (id in told || id in ctx.byRequest)
        && (!reentered ==> HeldOk(FailedIn(taskStates, id), held))
      modifies this`taskStates, this`told, this`waitingTasks, this`readyLog, this`reentered
      ensures old(Failable(taskStates[id].state)) ==>
        && FailsTo(old(taskStates), id, taskStates, ctx.silent) && Steady(ctx, held)
        && (reentered <==> old(reentered) || AnyReenters(FailedIn(old(taskStates), id), old(taskStates)[id].dependedOnBy, held, ctx.silent))
      ensures !old(Failable(taskStates[id].state)) ==> unchanged(this)
      ensures id in taskStates
      ensures match old(taskStates)[id].state
              case Running => taskStates[id].state == Failed
              case Ready => taskStates[id].state == Failed
              case WaitingForDeps => taskStates[id].state == Failed
              case _ => unchanged(this)
      ensures Slack() == old(Slack()) && readyLog == old(readyLog)
      decreases 0, |NonTerminal(taskStates)|, 0
    {
      if taskStates[id].state != Running && taskStates[id].state != Ready && taskStates[id].state != WaitingForDeps {
        return;
      }
      ghost var a := taskStates;
      MidAfterChange(a, id, a[id].(state := Failed));
      FailedFlags(a, id, told, ctx);
      NonTerminalAfter(a, id, a[id].(state := Failed));
      taskStates := taskStates[id := taskStates[id].(state := Failed)];
      waitingTasks := waitingTasks - 1;
      ReevaluateFailed(id, ctx, held);
    }

    /** Evaluate every dependent of a task that has just failed. */
    method ReevaluateFailed(id: TaskID, ghost ctx: Context, ghost held: set<TaskID>)
      requires Steady(ctx, held) && id in taskStates && taskStates[id].state == Failed
      modifies this`taskStates, this`told, this`waitingTasks, this`readyLog, this`reentered
      ensures Steady(ctx, held)
      ensures Cascade(old(taskStates), taskStates, old(taskStates)[id].dependedOnBy, ctx.silent)
      ensures id in taskStates && taskStates[id].state == Failed && DependentsSettled(taskStates, id, ctx.silent)
      ensures reentered <==> old(reentered) || AnyReenters(old(taskStates), old(taskStates)[id].dependedOnBy, held, ctx.silent)
      ensures Slack() == old(Slack()) && readyLog == old(readyLog)
      decreases 0, |NonTerminal(taskStates)|, 7
    {
      ghost var a := taskStates;
      var rest := taskStates[id].dependedOnBy;
      ghost var seen: set<TaskID> := {};
      CascadeNothing(a, a, {}, ctx.silent);
      while rest != {}
        invariant seen !! rest && seen + rest == a[id].dependedOnBy
        invariant Steady(ctx, held) && Cascade(a, taskStates, seen, ctx.silent)
        invariant Settled(taskStates, seen, ctx.silent)
        invariant reentered <==> old(reentered) || AnyReenters(a, seen, held, ctx.silent)
        invariant Slack() == old(Slack()) && readyLog == old(readyLog)
        decreases rest
      {
        var d :| d in rest;
        NonTerminalShrinks(a, taskStates, seen, ctx.silent);
        EvaluateDependent(id, d, ctx, held, a, seen, old(reentered));
        rest := rest - {d};
        seen := seen + {d};
      }
      assert seen == a[id].dependedOnBy;
      AllSettled(a, taskStates, seen, id, ctx.silent);
    }

    /** seen: the dependents of id evaluated so far. */
    method EvaluateDependent(id: TaskID, d: TaskID, ghost ctx: Context, ghost held: set<TaskID>,
                             ghost a: Tasks, ghost seen: set<TaskID>, ghost entered: bool)
      requires Steady(ctx, held) && Cascade(a, taskStates, seen, ctx.silent) && Settled(taskStates, seen, ctx.silent)
      requires id in a && a[id].state == Failed && d in a[id].dependedOnBy
      requires reentered <==> entered || AnyReenters(a, seen, held, ctx.silent)
      modifies this`taskStates, this`told, this`waitingTasks, this`readyLog, this`reentered
      ensures Steady(ctx, held) && Cascade(a, taskStates, seen + {d}, ctx.silent) && Settled(taskStates, seen + {d}, ctx.silent)
      ensures reentered <==> entered || AnyReenters(a, seen + {d}, held, ctx.silent)
      ensures Slack() == old(Slack()) && readyLog == old(readyLog)
      decreases 0, |NonTerminal(taskStates)|, 6
    {
      BeforeEvaluation(a, taskStates, seen, id, d, ctx.silent);
      EvaluateDependencies(d, ctx, held);
      SettleNext(a, old(taskStates), taskStates, seen, d, ctx.silent);
      NextDependent(a, old(taskStates), seen, d, held, ctx.silent);
    }

    /** Every dependency completed: become ready, and run if the listener says so. */
    method MarkReady(id: TaskID, ghost ctx: Context)
      requires Steady(ctx, {}) && id in taskStates && taskStates[id].state != Completed && AllDone(taskStates, id)
      modifies this`taskStates, this`readyLog
      ensures Steady(ctx, {})
      ensures taskStates == old(taskStates)[id := old(taskStates)[id].(state := ReadyState(runsWhenReady, id))]
      ensures taskStates[id].state == if runsWhenReady(id) then Running else Ready
      ensures readyLog == old(readyLog) + [id]
    {
      ReadyKeepsMid(taskStates, id, ReadyState(runsWhenReady, id));
      FlagsAfterChange(taskStates, id, ReadyState(runsWhenReady, id), told, ctx);
      taskStates := taskStates[id := taskStates[id].(state := Ready)];
      readyLog := readyLog + [id];
      // OnTaskReady
      if runsWhenReady(id) {
        taskStates := taskStates[id := taskStates[id].(state := Running)];
      }
      assert taskStates == old(taskStates)[id := old(taskStates)[id].(state := ReadyState(runsWhenReady, id))];
    }

    // ----- the four handlers -----

    /** ok is false where the source's optional access throws: the name is defined already. */
    method HandleDefineTask(id: TaskID, name: string) returns (ok: bool)
      requires Valid() && id !in taskStates
      modifies this`taskNameMap, this`taskStates, this`waitingTasks
      ensures Valid() && (old(Disciplined()) ==> Disciplined())
      ensures ok <==> Definable(old(taskNameMap), name)
      ensures !ok ==> unchanged(this)
      ensures ok ==> taskStates == ResolvedTasks(old(taskStates), id, name, WaitingOn(old(taskNameMap), name))
      ensures ok ==> taskNameMap == old(taskNameMap)[name := Defined(id)] && waitingTasks == old(waitingTasks) + 1
      ensures ok <==> name !in old(taskNameMap) || old(taskNameMap)[name].Pending?
      ensures ok ==> taskStates.Keys == old(taskStates).Keys + {id}
      ensures ok ==> taskStates[id].name == name && taskStates[id].state == DepsUnknown
      ensures ok ==> taskStates[id].dependedOnBy == set t | t in old(taskStates) && name in old(taskStates)[t].dependsOnUndefined
      ensures ok ==> forall t {:trigger taskStates[t]} :: t in old(taskStates) ==>
        taskStates[t] == if name in old(taskStates)[t].dependsOnUndefined
                         then old(taskStates)[t].(dependsOn := old(taskStates)[t].dependsOn + {id},
                                                  dependsOnUndefined := old(taskStates)[t].dependsOnUndefined - {name})
                         else old(taskStates)[t]
    {
      if name in taskNameMap && taskNameMap[name].Defined? {
        return false;
      }
      PendingDependentsExist(taskNameMap, taskStates, name);
      WaitingOnIs(taskNameMap, taskStates, name);
      Enter(id, name);
      DefinitionKeeps(old(taskNameMap), old(taskStates), told, byRequest, requested, dropped, readyLog, old(waitingTasks), id, name);
      ok := true;
    }

    /** Give the name to the new task, and move those who wait for the name over to it. */
    method Enter(id: TaskID, name: string)
      requires id !in taskStates && Definable(taskNameMap, name) && WaitingOn(taskNameMap, name) <= taskStates.Keys
      modifies this`taskNameMap, this`taskStates, this`waitingTasks
      ensures taskStates == ResolvedTasks(old(taskStates), id, name, WaitingOn(old(taskNameMap), name))
      ensures taskNameMap == old(taskNameMap)[name := Defined(id)] && waitingTasks == old(waitingTasks) + 1
    {
      var dependedOnBy := if name in taskNameMap then taskNameMap[name].dependedOnBy else {};
      ResolveDependents(dependedOnBy, name, id);
      taskNameMap := taskNameMap[name := Defined(id)];
      waitingTasks := waitingTasks + 1;
      taskStates := taskStates[id := TaskDesc(name, DepsUnknown, {}, {}, dependedOnBy, {})];
    }

    method ResolveDependents(dependents: set<TaskID>, name: string, id: TaskID)
      requires dependents <= taskStates.Keys
      modifies this`taskStates
      ensures taskStates == map t | t in old(taskStates) :: ResolvedTask(old(taskStates), id, name, dependents, t)
    {
      ghost var a := taskStates;
      var rest := dependents;
      while rest != {}
        invariant rest <= dependents && taskStates.Keys == a.Keys
        invariant forall t {:trigger taskStates[t]} :: t in a ==> taskStates[t] == ResolvedTask(a, id, name, dependents - rest, t)
        decreases rest
      {
        var d :| d in rest;
        taskStates := taskStates[d := taskStates[d].(dependsOnUndefined := taskStates[d].dependsOnUndefined - {name},
                                                     dependsOn := taskStates[d].dependsOn + {id})];
        rest := rest - {d};
      }
    }

    method HandleRunTask(id: TaskID)
      requires Valid()
      modifies this`taskStates
      ensures Valid() && (old(Disciplined()) ==> Disciplined())
      ensures if id in old(taskStates) && old(taskStates)[id].state == Ready
              then taskStates == old(taskStates)[id := old(taskStates)[id].(state := Running)]
              else taskStates == old(taskStates)
    {
      if id !in taskStates || taskStates[id].state != Ready {
        return;
      }
      ghost var a := taskStates;
      TaskOkOf(a, id);
      ReadyKeepsMid(a, id, Running);
      FlagsAfterChange(a, id, Running, told, Context(told, byRequest));
      taskStates := taskStates[id := taskStates[id].(state := Running)];
      RunKeeps(a, taskStates, id, taskNameMap, requested, dropped, told);
      NonTerminalAfter(a, id, a[id].(state := Running));
    }

    /** The listeners' mutexes come into play only if a new dependency has failed already. */
    method HandleSetDependencies(id: TaskID, depNames: set<string>)
      requires Valid()
      modifies this`taskNameMap, this`taskStates, this`told, this`waitingTasks, this`readyLog, this`reentered, this`requested, this`dropped
      ensures Valid() && (old(Disciplined()) ==> Disciplined())
      ensures SetTo(old(AsBook()), id, depNames, AsBook(), runsWhenReady)
      ensures !(id in old(taskStates) && Settable(old(taskStates)[id].state)) ==> unchanged(this)
      ensures id in old(taskStates) && Settable(old(taskStates)[id].state) ==>
        && requested == old(requested)[id := depNames]
        && dropped == old(dropped)[id := Dropped(old(taskNameMap), depNames)]
        && (reentered <==> old(reentered) || SettingReenters(old(taskNameMap), old(taskStates), id, depNames, old(told)))
        && (!FailsAtOnce(old(taskNameMap), old(taskStates), id, depNames) ==> told == old(told) && waitingTasks == old(waitingTasks))
      ensures id in old(taskStates) && (old(taskStates)[id].state == DepsUnknown || old(taskStates)[id].state == WaitingForDeps) ==>
        && id in taskStates && taskStates[id].state != DepsUnknown && taskStates[id].state != Completed
        && taskStates[id].dependsOn == (set n | n in depNames && n in old(taskNameMap) && old(taskNameMap)[n].Defined? :: old(taskNameMap)[n].taskId)
        && taskStates[id].dependsOnUndefined == (set n | n in depNames && n in old(taskNameMap) && old(taskNameMap)[n].Pending?)
        && requested == old(requested)[id := depNames]
      ensures !(id in old(taskStates) && (old(taskStates)[id].state == DepsUnknown || old(taskStates)[id].state == WaitingForDeps)) ==>
        unchanged(this)
    {
      if id !in taskStates || (taskStates[id].state != DepsUnknown && taskStates[id].state != WaitingForDeps) {
        return;
      }
      NewDependencies(id, depNames);
      SettingTakes(old(taskNameMap), old(taskStates), id, depNames, taskStates, runsWhenReady, old(told));
    }

    method NewDependencies(id: TaskID, depNames: set<string>)
      requires Valid() && id in taskStates && Settable(taskStates[id].state)
      modifies this`taskNameMap, this`taskStates, this`told, this`waitingTasks, this`readyLog, this`reentered, this`requested, this`dropped
      ensures Valid() && (old(Disciplined()) ==> Disciplined())
      ensures SetTo(old(AsBook()), id, depNames, AsBook(), runsWhenReady)
      ensures requested == old(requested)[id := depNames] && dropped == old(dropped)[id := Dropped(old(taskNameMap), depNames)]
      ensures reentered <==> old(reentered) || SettingReenters(old(taskNameMap), old(taskStates), id, depNames, old(told))
      ensures !FailsAtOnce(old(taskNameMap), old(taskStates), id, depNames) ==> told == old(told) && waitingTasks == old(waitingTasks)
    {
      RewiredSteady(Now(), id, depNames);
      RecordDependencies(id, depNames);
      SettingKeeps(old(taskNameMap), old(taskStates), old(told), byRequest, old(requested), old(dropped),
                   id, depNames, taskStates, told, runsWhenReady);
      if old(Disciplined()) {
        SettingKeepsOrder(old(taskNameMap), old(taskStates), old(told), old(readyLog), id, depNames, taskStates, runsWhenReady, readyLog);
      }
    }

    /** Record the dependencies and evaluate them. */
    method RecordDependencies(id: TaskID, depNames: set<string>)
      requires id in taskStates && Edges(taskStates) && NameEdges(taskNameMap, taskStates)
      requires Recorded(Now(), id, depNames)
      modifies this`taskNameMap, this`taskStates, this`told, this`waitingTasks, this`readyLog, this`reentered, this`requested, this`dropped
      ensures Mid(taskStates) && Flags(taskStates, told, Context(old(told), byRequest))
      ensures requested == old(requested)[id := depNames] && dropped == old(dropped)[id := Dropped(old(taskNameMap), depNames)]
      ensures taskNameMap == RewiredNames(WithNewNames(old(taskNameMap), depNames), id, RecordedUndefined(old(taskNameMap), depNames))
      ensures SetDependenciesTo(old(taskNameMap), old(taskStates), id, depNames, taskStates, runsWhenReady, old(told))
      ensures reentered <==> old(reentered) || SettingReenters(old(taskNameMap), old(taskStates), id, depNames, old(told))
      ensures readyLog == old(readyLog) + NewlyReady(old(taskNameMap), old(taskStates), id, depNames)
      ensures Slack() == old(Slack())
      ensures !FailsAtOnce(old(taskNameMap), old(taskStates), id, depNames) ==> told == old(told) && waitingTasks == old(waitingTasks)
    {
      var ids, undefined := RecordedIds(taskNameMap, depNames), RecordedUndefined(taskNameMap, depNames);
      Rewire(id, depNames, ids, undefined);
      EvaluateAnew(id, Context(told, byRequest));
    }

    method EvaluateAnew(id: TaskID, ghost ctx: Context)
      requires id in taskStates && Steady(ctx, {}) && taskStates[id].state == WaitingForDeps
      modifies this`taskStates, this`told, this`waitingTasks, this`readyLog, this`reentered
      ensures Steady(ctx, {}) && EvaluatedTo(old(taskStates), id, taskStates, runsWhenReady, ctx.silent)
      ensures readyLog == old(readyLog) + (if !HasFailedDep(old(taskStates), id) && AllDone(old(taskStates), id) then [id] else [])
      ensures Slack() == old(Slack()) && (!HasFailedDep(old(taskStates), id) ==> told == old(told) && waitingTasks == old(waitingTasks))
      ensures reentered <==> old(reentered) || (HasFailedDep(old(taskStates), id) && WaitingCycle(old(taskStates), id, ctx.silent))
    {
      EvaluateDependencies(id, ctx, {});
      EntryWithoutStack(old(taskStates), id, ctx.silent);
      if !HasFailedDep(old(taskStates), id) {
        SameCount(old(taskStates), id, taskStates, runsWhenReady, ctx.silent);
      }
    }

    /** Record the new dependencies in both relations. */
    method Rewire(id: TaskID, depNames: set<string>, ids: set<TaskID>, undefined: set<string>)
      requires id in taskStates && Edges(taskStates) && NameEdges(taskNameMap, taskStates) && ids <= taskStates.Keys
      requires ids == RecordedIds(taskNameMap, depNames) && undefined == RecordedUndefined(taskNameMap, depNames)
      modifies this`taskStates, this`taskNameMap, this`requested, this`dropped
      ensures taskStates == RewiredTasks(old(taskStates), id, ids, undefined)
      ensures taskNameMap == RewiredNames(WithNewNames(old(taskNameMap), depNames), id, undefined)
      ensures requested == old(requested)[id := depNames] && dropped == old(dropped)[id := Dropped(old(taskNameMap), depNames)]
    {
      var oldUndefined := taskStates[id].dependsOnUndefined;
      taskNameMap := WithNewNames(taskNameMap, depNames);
      NewNamesNameEdges(old(taskNameMap), taskStates, depNames);
      RewireTasks(id, ids, undefined);
      RewireNames(id, oldUndefined, undefined);
      requested, dropped := requested[id := depNames], dropped[id := Dropped(old(taskNameMap), depNames)];
    }

    /** The edits to the tasks: withdraw id from its old dependencies, enter it at the new ones. */
    method RewireTasks(id: TaskID, ids: set<TaskID>, undefined: set<string>)
      requires id in taskStates && Edges(taskStates) && ids <= taskStates.Keys
      modifies this`taskStates
      ensures taskStates == RewiredTasks(old(taskStates), id, ids, undefined)
    {
      ghost var a := taskStates;
      var rest := taskStates[id].dependsOn;
      while rest != {}
        invariant rest <= a[id].dependsOn && taskStates.Keys == a.Keys
        invariant forall t {:trigger taskStates[t]} :: t in a ==>
          taskStates[t] == if t in a[id].dependsOn - rest then a[t].(dependedOnBy := a[t].dependedOnBy - {id}) else a[t]
        decreases rest
      {
        var d :| d in rest;
        taskStates := taskStates[d := taskStates[d].(dependedOnBy := taskStates[d].dependedOnBy - {id})];
        rest := rest - {d};
      }
      assert forall t {:trigger taskStates[t]} :: t in a ==> taskStates[t] == a[t].(dependedOnBy := a[t].dependedOnBy - {id});
      rest := ids;
      while rest != {}
        invariant rest <= ids && taskStates.Keys == a.Keys
        invariant forall t {:trigger taskStates[t]} :: t in a ==>
          taskStates[t] == a[t].(dependedOnBy := Toggled(a[t].dependedOnBy, id, t in ids - rest))
        decreases rest
      {
        var d :| d in rest;
        taskStates := taskStates[d := taskStates[d].(dependedOnBy := taskStates[d].dependedOnBy + {id})];
        rest := rest - {d};
      }
      taskStates := taskStates[id := taskStates[id].(state := WaitingForDeps, dependsOn := ids,
                                                     dependsOnUndefined := undefined, failuresReported := {})];
      assert ids - {} == ids;
    }

    /** The same edits to the names that are not defined yet. */
    method RewireNames(id: TaskID, before: set<string>, undefined: set<string>)
      requires forall n :: n in before + undefined ==> n in taskNameMap && taskNameMap[n].Pending?
      requires forall n :: n in taskNameMap && taskNameMap[n].Pending? && id in taskNameMap[n].dependedOnBy ==> n in before
      modifies this`taskNameMap
      ensures taskNameMap == RewiredNames(old(taskNameMap), id, undefined)
    {
      ghost var a := taskNameMap;
      var rest := before;
      while rest != {}
        invariant rest <= before && taskNameMap.Keys == a.Keys
        invariant forall n {:trigger taskNameMap[n]} :: n in a ==>
          taskNameMap[n] == if n in before - rest then Pending(a[n].dependedOnBy - {id}) else a[n]
        decreases rest
      {
        var n :| n in rest;
        taskNameMap := taskNameMap[n := Pending(taskNameMap[n].dependedOnBy - {id})];
        rest := rest - {n};
      }
      assert forall n {:trigger taskNameMap[n]} :: n in a && a[n].Pending? ==> taskNameMap[n] == Pending(a[n].dependedOnBy - {id});
      rest := undefined;
      while rest != {}
        invariant rest <= undefined && taskNameMap.Keys == a.Keys
        invariant forall n {:trigger taskNameMap[n]} :: n in a ==>
          taskNameMap[n] == if a[n].Pending? then Pending(Toggled(a[n].dependedOnBy, id, n in undefined - rest)) else a[n]
        decreases rest
      {
        var n :| n in rest;
        taskNameMap := taskNameMap[n := Pending(taskNameMap[n].dependedOnBy + {id})];
        rest := rest - {n};
      }
      assert undefined - {} == undefined;
    }

    /** The task is failed by request; its own listener is not on the stack. */
    method HandleCompleteTask(id: TaskID, success: bool)
      requires Valid()
      modifies this`taskStates, this`told, this`waitingTasks, this`readyLog, this`reentered, this`byRequest
      ensures Valid() && Flags(taskStates, told, Context(old(told), byRequest))
      ensures old(Disciplined()) && !FailsWaiting(old(taskStates), CompleteTask(id, success), old(told)) ==> Disciplined()
      ensures id in old(taskStates) && success && old(taskStates)[id].state == Running ==>
        && CompletesTo(old(taskStates), id, taskStates, runsWhenReady)
        && byRequest == old(byRequest) && reentered == old(reentered)
        && Announced(old(taskStates)[id := old(taskStates)[id].(state := Completed)], old(taskStates)[id].dependedOnBy, old(readyLog), readyLog)
        && waitingTasks == old(waitingTasks) - 1
      ensures id in old(taskStates) && !success && Failable(old(taskStates)[id].state) ==>
        && FailsTo(old(taskStates), id, taskStates, old(told))
        && byRequest == old(byRequest) + {id}
        && (reentered <==> old(reentered) || DoomedCycle(old(taskStates), id, old(told)))
        && readyLog == old(readyLog) && Slack() == old(Slack())
      ensures !(id in old(taskStates) && (if success then old(taskStates)[id].state == Running else Failable(old(taskStates)[id].state))) ==>
        unchanged(this)
      ensures requested == old(requested) && dropped == old(dropped) && taskNameMap == old(taskNameMap)
      ensures id !in old(taskStates) ==> unchanged(this)
      ensures id in old(taskStates) ==> id in taskStates
      ensures id in old(taskStates) ==>
        match old(taskStates)[id].state
        case Running => taskStates[id].state == if success then Completed else Failed
        case Ready => if success then unchanged(this) else taskStates[id].state == Failed
        case WaitingForDeps => if success then unchanged(this) else taskStates[id].state == Failed
        case _ => unchanged(this)
    {
      if id !in taskStates {
        return;
      }
      if success {
        if taskStates[id].state == Running {
          NotItsOwnDependent(taskStates, id);
          SucceedTask(id);
        }
      } else {
        FailByRequest(id);
      }
    }

    method FailByRequest(id: TaskID)
      requires Valid() && id in taskStates
      modifies this`taskStates, this`told, this`waitingTasks, this`readyLog, this`reentered, this`byRequest
      ensures Valid() && Flags(taskStates, told, Context(old(told), byRequest))
      ensures old(Disciplined()) && Failable(old(taskStates)[id].state) ==>
        (Disciplined() <==> MayFail(old(taskStates), id, old(told)))
      ensures Failable(old(taskStates)[id].state) ==>
        && FailsTo(old(taskStates), id, taskStates, old(told))
        && byRequest == old(byRequest) + {id}
        && (reentered <==> old(reentered) || DoomedCycle(old(taskStates), id, old(told)))
        && readyLog == old(readyLog) && Slack() == old(Slack())
      ensures !Failable(old(taskStates)[id].state) ==> unchanged(this)
    {
      ghost var a := taskStates;
      RequestFailure(id);
      if Failable(a[id].state) {
        FailureKeeps(taskNameMap, a, id, taskStates, told, Context(old(told), byRequest), requested, dropped);
        if old(Disciplined()) {
          FailureJustifiedIff(a, id, taskStates, old(told));
          FailureKeepsLog(a, id, taskStates, readyLog, old(told));
        }
      }
    }

    method RequestFailure(id: TaskID)
      requires Mid(taskStates) && Flags(taskStates, told, Context(told, byRequest)) && id in taskStates
      modifies this`taskStates, this`told, this`waitingTasks, this`readyLog, this`reentered, this`byRequest
      ensures Failable(old(taskStates)[id].state) ==>
        && Mid(taskStates) && Flags(taskStates, told, Context(old(told), byRequest))
        && FailsTo(old(taskStates), id, taskStates, old(told)) && byRequest == old(byRequest) + {id}
        && (reentered <==> old(reentered) || DoomedCycle(old(taskStates), id, old(told)))
        && readyLog == old(readyLog) && Slack() == old(Slack())
      ensures !Failable(old(taskStates)[id].state) ==> unchanged(this)
    {
      ghost var a, ctx := taskStates, Context(told, byRequest + {id});
      if Failable(a[id].state) {
        RequestFlags(a, id, told, byRequest);
        byRequest := byRequest + {id};
      }
      FailTask(id, ctx, {});
      FailureWithoutStack(a, id, ctx.silent);
    }

    method SucceedTask(id: TaskID)
      requires Valid() && id in taskStates && taskStates[id].state == Running
      modifies this`taskStates, this`told, this`waitingTasks, this`readyLog, this`reentered
      ensures Valid() && (old(Disciplined()) ==> Disciplined())
      ensures Flags(taskStates, told, Context(old(told), byRequest)) && reentered == old(reentered)
      ensures CompletesTo(old(taskStates), id, taskStates, runsWhenReady)
      ensures Announced(old(taskStates)[id := old(taskStates)[id].(state := Completed)], old(taskStates)[id].dependedOnBy, old(readyLog), readyLog)
      ensures waitingTasks == old(waitingTasks) - 1
    {
      ghost var a, ctx := taskStates, Context(told, byRequest);
      MarkCompleted(id, ctx);
      CompletionKeeps(taskNameMap, a, id, taskStates, runsWhenReady, told, ctx, requested, dropped);
      if old(Disciplined()) {
        CompletionKeepsDiscipline(a, id, taskStates, runsWhenReady, old(readyLog), readyLog);
      }
    }

    /** The success path: mark completed, then evaluate every dependent. */
    method MarkCompleted(id: TaskID, ghost ctx: Context)
      requires Steady(ctx, {}) && AtRest(taskStates, ctx.silent) && id in taskStates && taskStates[id].state == Running
      modifies this`taskStates, this`told, this`waitingTasks, this`readyLog, this`reentered
      ensures Steady(ctx, {}) && CompletesTo(old(taskStates), id, taskStates, runsWhenReady)
      ensures Announced(old(taskStates)[id := old(taskStates)[id].(state := Completed)], old(taskStates)[id].dependedOnBy, old(readyLog), readyLog)
      ensures waitingTasks == old(waitingTasks) - 1 && reentered == old(reentered)
    {
      ghost var a := taskStates;
      CompletedKeepsMid(a, id);
      FlagsAfterChange(a, id, Completed, told, ctx);
      taskStates := taskStates[id := taskStates[id].(state := Completed)];
      waitingTasks := waitingTasks - 1;
      ReevaluateCompleted(id, ctx, a);
    }

    method ReevaluateCompleted(id: TaskID, ghost ctx: Context, ghost a: Tasks)
      requires Mid(a) && AtRest(a, ctx.silent) && id in a && a[id].state == Running
      requires taskStates == a[id := a[id].(state := Completed)] && Steady(ctx, {})
      modifies this`taskStates, this`told, this`waitingTasks, this`readyLog, this`reentered
      ensures Steady(ctx, {}) && CompletesTo(a, id, taskStates, runsWhenReady)
      ensures Announced(a[id := a[id].(state := Completed)], a[id].dependedOnBy, old(readyLog), readyLog)
      ensures waitingTasks == old(waitingTasks) && reentered == old(reentered)
    {
      ghost var a1 := taskStates;
      NotItsOwnDependent(a, id);
      var rest := taskStates[id].dependedOnBy;
      ghost var seen: set<TaskID> := {};
      PromotedNone(a1, runsWhenReady);
      while rest != {}
        invariant seen !! rest && seen + rest == a[id].dependedOnBy
        invariant Steady(ctx, {})
        invariant Promoted(a1, taskStates, seen, runsWhenReady)
        invariant Announced(a1, seen, old(readyLog), readyLog)
        invariant waitingTasks == old(waitingTasks) && reentered == old(reentered)
        decreases rest
      {
        var d :| d in rest;
        PromoteOne(id, d, ctx, a, seen, old(readyLog));
        rest := rest - {d};
        seen := seen + {d};
      }
      assert seen == a[id].dependedOnBy;
    }

    method PromoteOne(id: TaskID, d: TaskID, ghost ctx: Context, ghost a: Tasks, ghost seen: set<TaskID>, ghost log0: seq<TaskID>)
      requires Mid(a) && AtRest(a, ctx.silent) && id in a && a[id].state == Running
      requires Steady(ctx, {}) && Promoted(a[id := a[id].(state := Completed)], taskStates, seen, runsWhenReady)
      requires Announced(a[id := a[id].(state := Completed)], seen, log0, readyLog)
      requires d in a[id].dependedOnBy && d !in seen && seen <= a[id].dependedOnBy
      requires forall q :: q in a[id].dependedOnBy ==> q in a && a[q].state != Completed && q != id
      modifies this`taskStates, this`told, this`waitingTasks, this`readyLog, this`reentered
      ensures Steady(ctx, {}) && Promoted(a[id := a[id].(state := Completed)], taskStates, seen + {d}, runsWhenReady)
      ensures Announced(a[id := a[id].(state := Completed)], seen + {d}, log0, readyLog)
      ensures waitingTasks == old(waitingTasks) && reentered == old(reentered)
    {
      BeforePromotion(a, id, taskStates, seen, runsWhenReady, d);
      EvaluateDependencies(d, ctx, {});
      AfterEvaluation(a, id, old(taskStates), seen, runsWhenReady, d, taskStates, ctx.silent);
      NextPromotion(a, id, old(taskStates), seen, runsWhenReady, d, taskStates, log0, old(readyLog), readyLog);
      SameNonTerminal(old(taskStates), taskStates);
    }

    // ----- draining the queue -----

    ghost function Now(): Snapshot reads this {
      Snapshot(taskNameMap, taskStates, told, byRequest)
    }

    ghost function AsBook(): Book reads this {
      Book(Now(), readyLog, waitingTasks)
    }

    /** One pass of the executor: it swaps its empty local queue for the incoming one and drains
        that from the back. marks[i]: the services that set their flags from outside before
        incoming[i] is handled. swapped: what the shared queue holds after the swap. events and
        books: what was handled, and the states in between. An action that throws ends the pass
        and stays at the back of the local queue; from a listener that is entered while it is on
        the call stack the source does not return. */
    method Run(incoming: seq<Action>, marks: seq<set<TaskID>>)
      returns (result: ExecutionState, swapped: seq<Action>, ghost events: seq<Event>, ghost books: seq<Book>)
      requires Valid() && FreshDefinitions(incoming, taskStates.Keys) && |marks| == |incoming|
      modifies this`taskNameMap, this`taskStates, this`told, this`waitingTasks, this`readyLog, this`localQueue,
               this`byRequest, this`reentered, this`requested, this`dropped
      ensures Valid()
      ensures Pass(books, events, runsWhenReady) && books[0] == old(AsBook()) && books[|events|] == AsBook()
      ensures HandledFrom(incoming, marks, events)
      ensures old(stopRequested) ==> result == End && events == [] && swapped == incoming && localQueue == old(localQueue)
      ensures !old(stopRequested) ==> swapped == old(localQueue)
      ensures !old(stopRequested) && result != Threw ==> |events| == |incoming| && localQueue == []
      ensures result == Threw ==> 0 < |events| && localQueue == incoming[..|incoming| - |events| + 1]
      ensures ThrowsLast(books, events, result == Threw)
      ensures !old(stopRequested) && result != Threw ==>
        result == if stopWhenComplete && taskStates != map[] && waitingTasks == 0 then End else Suspend
      ensures reentered <==> old(reentered) || Reentered(books, events)
      ensures KeepsCompleted(old(taskStates), taskStates)
      ensures old(Disciplined()) && InTurn(books, events) ==> Disciplined() && KeepsFailed(old(taskStates), taskStates)
      ensures old(Disciplined()) && InTurn(books, events) && !old(stopRequested) && result == End ==>
        forall t :: t in taskStates ==> Terminal(taskStates[t].state)
    {
      if stopRequested {
        return End, incoming, [], [AsBook()];
      }
      localQueue, swapped := incoming, localQueue;
      var threw: bool;
      threw, events, books := Drain(marks);
      PassKeepsCompleted(books, events, runsWhenReady, 0, |events|);
      if old(Disciplined()) && InTurn(books, events) {
        PassKeepsOrder(books, events, runsWhenReady, |events|);
        PassKeepsFailed(books, events, runsWhenReady, 0, |events|);
      }
      if threw {
        result := Threw;
      } else if stopWhenComplete && taskStates != map[] && waitingTasks == 0 {
        NothingWaitingIsTerminal(taskStates, readyLog);
        result := End;
      } else {
        result := Suspend;
      }
    }

    /** The loop over the local queue. */
    method Drain(marks: seq<set<TaskID>>) returns (threw: bool, ghost events: seq<Event>, ghost books: seq<Book>)
      requires Valid() && FreshDefinitions(localQueue, taskStates.Keys) && |marks| == |localQueue|
      modifies this`taskNameMap, this`taskStates, this`told, this`waitingTasks, this`readyLog, this`localQueue,
               this`byRequest, this`reentered, this`requested, this`dropped
      ensures Valid()
      ensures Pass(books, events, runsWhenReady) && books[0] == old(AsBook()) && books[|events|] == AsBook()
      ensures HandledFrom(old(localQueue), marks, events) && ThrowsLast(books, events, threw)
      ensures !threw ==> |events| == |old(localQueue)| && localQueue == []
      ensures threw ==> 0 < |events| && localQueue == old(localQueue)[..|old(localQueue)| - |events| + 1]
      ensures reentered <==> old(reentered) || Reentered(books, events)
    {
      threw, events, books := false, [], [AsBook()];
      while localQueue != [] && !threw
        invariant HandledFrom(old(localQueue), marks, events) && (threw ==> |events| > 0)
        invariant localQueue == old(localQueue)[..|old(localQueue)| - |events| + if threw then 1 else 0]
        invariant Valid() && (!threw ==> FreshDefinitions(localQueue, taskStates.Keys))
        invariant Pass(books, events, runsWhenReady) && books[0] == old(AsBook()) && books[|events|] == AsBook()
        invariant ThrowsLast(books, events, threw)
        invariant reentered <==> old(reentered) || Reentered(books, events)
        decreases |old(localQueue)| - |events|
      {
        threw, events, books := DrainNext(old(localQueue), marks, events, books, old(reentered));
      }
    }

    /** One round of that loop. incoming: the queue at its beginning. */
    method DrainNext(ghost incoming: seq<Action>, marks: seq<set<TaskID>>, ghost events: seq<Event>, ghost books: seq<Book>, ghost entered: bool)
      returns (threw: bool, ghost events': seq<Event>, ghost books': seq<Book>)
      requires Valid() && FreshDefinitions(localQueue, taskStates.Keys) && localQueue != []
      requires HandledFrom(incoming, marks, events) && |events| < |incoming| && localQueue == incoming[..|incoming| - |events|]
      requires Pass(books, events, runsWhenReady) && books[|events|] == AsBook() && ThrowsLast(books, events, false)
      requires reentered <==> entered || Reentered(books, events)
      modifies this`taskNameMap, this`taskStates, this`told, this`waitingTasks, this`readyLog, this`localQueue,
               this`byRequest, this`reentered, this`requested, this`dropped
      ensures Valid() && (!threw ==> FreshDefinitions(localQueue, taskStates.Keys))
      ensures HandledFrom(incoming, marks, events') && |events'| == |events| + 1
      ensures localQueue == incoming[..|incoming| - |events'| + if threw then 1 else 0]
      ensures Pass(books', events', runsWhenReady) && books'[0] == books[0] && books'[|events'|] == AsBook() && ThrowsLast(books', events', threw)
      ensures reentered <==> entered || Reentered(books', events')
    {
      var ok;
      HandledNext(incoming, marks, events, localQueue);
      ghost var queue, before := localQueue, taskStates.Keys;
      ok, events', books' := TakeBack(marks[|localQueue| - 1], events, books, entered);
      StillFresh(queue, before, taskStates.Keys);
      threw := !ok;
    }

    /** The action at the back is handled, and removed unless it throws. */
    method TakeBack(marks: set<TaskID>, ghost events: seq<Event>, ghost books: seq<Book>, ghost entered: bool)
      returns (ok: bool, ghost events': seq<Event>, ghost books': seq<Book>)
      requires Valid() && localQueue != []
      requires localQueue[|localQueue| - 1].DefineTask? ==> localQueue[|localQueue| - 1].id !in taskStates
      requires Pass(books, events, runsWhenReady) && books[|events|] == AsBook() && ThrowsLast(books, events, false)
      requires reentered <==> entered || Reentered(books, events)
      modifies this`taskNameMap, this`taskStates, this`told, this`waitingTasks, this`readyLog, this`localQueue,
               this`byRequest, this`reentered, this`requested, this`dropped
      ensures Valid()
      ensures taskStates.Keys <= old(taskStates).Keys +
        (if old(localQueue)[|old(localQueue)| - 1].DefineTask? then {old(localQueue)[|old(localQueue)| - 1].id} else {})
      ensures localQueue == if ok then old(localQueue)[..|old(localQueue)| - 1] else old(localQueue)
      ensures events' == events + [Event(marks, old(localQueue)[|old(localQueue)| - 1])]
      ensures Pass(books', events', runsWhenReady) && books'[0] == books[0] && books'[|events'|] == AsBook()
      ensures ThrowsLast(books', events', !ok)
      ensures reentered <==> entered || Reentered(books', events')
    {
      ghost var e := Event(marks, localQueue[|localQueue| - 1]);
      ok := MarkAndAct(marks, localQueue[|localQueue| - 1]);
      PassNext(books, events, runsWhenReady, e, AsBook());
      events', books' := events + [e], books + [AsBook()];
      if ok {
        localQueue := localQueue[..|localQueue| - 1];
      }
    }

    /** Flags are set from outside, then an action is handled. */
    method MarkAndAct(marks: set<TaskID>, action: Action) returns (ok: bool)
      requires Valid()
      requires action.DefineTask? ==> action.id !in taskStates
      modifies this`taskNameMap, this`taskStates, this`told, this`waitingTasks, this`readyLog,
               this`byRequest, this`reentered, this`requested, this`dropped
      ensures Valid() && BookTo(Marked(old(AsBook()), Event(marks, action)), action, AsBook(), runsWhenReady)
      ensures reentered <==> old(reentered) || ActionReenters(Marked(old(AsBook()), Event(marks, action)).now, action)
      ensures taskStates.Keys <= old(taskStates).Keys + (if action.DefineTask? then {action.id} else {})
      ensures ok <==> !action.DefineTask? || Accepted(Marked(old(AsBook()), Event(marks, action)).now, action)
    {
      MarkingKeeps(taskStates, told, byRequest, marks);
      told := told + marks;
      ok := Act(action);
    }

    method Act(action: Action) returns (ok: bool)
      requires Valid()
      requires action.DefineTask? ==> action.id !in taskStates
      modifies this`taskNameMap, this`taskStates, this`told, this`waitingTasks, this`readyLog,
               this`byRequest, this`reentered, this`requested, this`dropped
      ensures Valid() && BookTo(old(AsBook()), action, AsBook(), runsWhenReady)
      ensures old(Disciplined()) && !OutOfTurn(old(Now()), action) ==> Disciplined()
      ensures reentered <==> old(reentered) || ActionReenters(old(Now()), action)
      ensures KeepsCompleted(old(taskStates), taskStates)
      ensures old(Disciplined()) ==> KeepsFailed(old(taskStates), taskStates)
      ensures taskStates.Keys <= old(taskStates).Keys + (if action.DefineTask? then {action.id} else {})
      ensures ok <==> !action.DefineTask? || Accepted(old(Now()), action)
    {
      ok := true;
      match action
      case DefineTask(id, name) => ok := ActDefine(id, name);
      case SetDependencies(id, depNames) => ActSetDependencies(id, depNames);
      case RunTask(id) => ActRun(id);
      case CompleteTask(id, success) => ActComplete(id, success);
    }

    method ActRun(id: TaskID)
      requires Valid()
      modifies this`taskStates
      ensures Valid() && (old(Disciplined()) ==> Disciplined())
      ensures BookTo(old(AsBook()), RunTask(id), AsBook(), runsWhenReady)
      ensures KeepsCompleted(old(taskStates), taskStates) && KeepsFailed(old(taskStates), taskStates)
      ensures taskStates.Keys == old(taskStates).Keys
    {
      HandleRunTask(id);
      RunActs(old(AsBook()), id, AsBook(), runsWhenReady);
    }

    method ActDefine(id: TaskID, name: string) returns (ok: bool)
      requires Valid() && id !in taskStates
      modifies this`taskNameMap, this`taskStates, this`waitingTasks
      ensures Valid() && (old(Disciplined()) ==> Disciplined())
      ensures BookTo(old(AsBook()), DefineTask(id, name), AsBook(), runsWhenReady)
      ensures ok <==> Accepted(old(Now()), DefineTask(id, name))
      ensures KeepsCompleted(old(taskStates), taskStates) && KeepsFailed(old(taskStates), taskStates)
      ensures taskStates.Keys <= old(taskStates).Keys + {id}
    {
      ok := HandleDefineTask(id, name);
      DefinitionActs(old(AsBook()), id, name, AsBook(), runsWhenReady);
    }

    method ActSetDependencies(id: TaskID, depNames: set<string>)
      requires Valid()
      modifies this`taskNameMap, this`taskStates, this`told, this`waitingTasks, this`readyLog, this`reentered, this`requested, this`dropped
      ensures Valid() && (old(Disciplined()) ==> Disciplined())
      ensures BookTo(old(AsBook()), SetDependencies(id, depNames), AsBook(), runsWhenReady)
      ensures reentered <==> old(reentered) || ActionReenters(old(Now()), SetDependencies(id, depNames))
      ensures KeepsCompleted(old(taskStates), taskStates) && KeepsFailed(old(taskStates), taskStates)
      ensures taskStates.Keys == old(taskStates).Keys
    {
      HandleSetDependencies(id, depNames);
      SettingActs(old(AsBook()), id, depNames, AsBook(), runsWhenReady);
    }

    method ActComplete(id: TaskID, success: bool)
      requires Valid()
      modifies this`taskStates, this`told, this`waitingTasks, this`readyLog, this`reentered, this`byRequest
      ensures Valid()
      ensures old(Disciplined()) && !OutOfTurn(old(Now()), CompleteTask(id, success)) ==> Disciplined()
      ensures BookTo(old(AsBook()), CompleteTask(id, success), AsBook(), runsWhenReady)
      ensures reentered <==> old(reentered) || ActionReenters(old(Now()), CompleteTask(id, success))
      ensures KeepsCompleted(old(taskStates), taskStates)
      ensures old(Disciplined()) ==> KeepsFailed(old(taskStates), taskStates)
      ensures taskStates.Keys == old(taskStates).Keys
    {
      HandleCompleteTask(id, success);
      CompletionActs(old(AsBook()), id, success, AsBook(), runsWhenReady);
    }
  }
}
