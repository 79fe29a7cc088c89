/** Holder/StartupTaskManager: what each handler of the startup executor makes of the tasks,
    and what that keeps. */
module StartupSteps {
  import opened Collections
  import opened Graphs
  import opened StartupState
  import opened StartupNames
  import opened StartupReentry

  datatype Action =
    | DefineTask(id: TaskID, name: string)
    | SetDependencies(id: TaskID, depNames: set<string>)
    | RunTask(id: TaskID)
    | CompleteTask(id: TaskID, success: bool)

  predicate Failable(s: TaskState) { s == Running || s == Ready || s == WaitingForDeps }

  predicate Settable(s: TaskState) { s == DepsUnknown || s == WaitingForDeps }

  ghost predicate Consistent(names: Names, tasks: Tasks, told: set<TaskID>, byRequest: set<TaskID>,
                             requested: map<TaskID, set<string>>, dropped: map<TaskID, set<string>>) {
    && Mid(tasks)
    && Flags(tasks, told, Context(told, byRequest))
    && NameEdges(names, tasks)
    && AtRest(tasks, told)
    && NamesTracked(names, tasks, requested, dropped)
  }

  ghost predicate Orderly(tasks: Tasks, log: seq<TaskID>, waiting: int) {
    && FailuresJustified(tasks)
    && OncePerTask(tasks, log)
    && waiting == |NonTerminal(tasks)|
  }

  ghost predicate KeepsCompleted(a: Tasks, b: Tasks) {
    a.Keys <= b.Keys && forall t {:trigger b[t].state} :: t in a && a[t].state == Completed ==> b[t].state == Completed
  }

  ghost predicate KeepsFailed(a: Tasks, b: Tasks) {
    a.Keys <= b.Keys && forall t {:trigger b[t].state} :: t in a && a[t].state == Failed ==> b[t].state == Failed
  }

  /** The action fails a waiting task that may not fail yet. */
  ghost predicate FailsWaiting(tasks: Tasks, action: Action, silent: set<TaskID>) {
    action.CompleteTask? && !action.success && action.id in tasks && Failable(tasks[action.id].state) && !MayFail(tasks, action.id, silent)
  }

  /** Task IDs are handed out once: no queued definition reuses one. */
  ghost predicate FreshDefinitions(queue: seq<Action>, ids: set<TaskID>) {
    && (forall i :: 0 <= i < |queue| && queue[i].DefineTask? ==> queue[i].id !in ids)
    && forall i, j :: 0 <= i < j < |queue| && queue[i].DefineTask? && queue[j].DefineTask? ==> queue[i].id != queue[j].id
  }

  lemma StillFresh(queue: seq<Action>, before: set<TaskID>, after: set<TaskID>)
    requires FreshDefinitions(queue, before) && queue != []
    requires after <= before + (if queue[|queue| - 1].DefineTask? then {queue[|queue| - 1].id} else {})
    ensures FreshDefinitions(queue[..|queue| - 1], after)
  {
  }

  lemma NothingWaitingIsTerminal(tasks: Tasks, log: seq<TaskID>)
    ensures Orderly(tasks, log, 0) ==> forall t :: t in tasks ==> Terminal(tasks[t].state)
  {
    if Orderly(tasks, log, 0) {
      forall t | t in tasks ensures Terminal(tasks[t].state) {
        assert t !in NonTerminal(tasks);
      }
    }
  }

  // ----- completed and failed are absorbing -----

  lemma DefinitionAbsorbs(a: Tasks, names: Names, id: TaskID, n: string)
    requires id !in a
    ensures KeepsCompleted(a, ResolvedTasks(a, id, n, WaitingOn(names, n)))
    ensures KeepsFailed(a, ResolvedTasks(a, id, n, WaitingOn(names, n)))
  {
    var w := WaitingOn(names, n);
    var b := ResolvedTasks(a, id, n, w);
    forall t | t in a ensures t in b && b[t].state == a[t].state {
      assert b[t] == ResolvedTask(a, id, n, w, t);
    }
  }

  lemma SetDependenciesAbsorbs(names: Names, a: Tasks, id: TaskID, deps: set<string>, c: Tasks, runs: TaskID -> bool, silent: set<TaskID>)
    requires id in a && (a[id].state == DepsUnknown || a[id].state == WaitingForDeps)
    requires SetDependenciesTo(names, a, id, deps, c, runs, silent)
    ensures a.Keys == c.Keys && KeepsCompleted(a, c) && KeepsFailed(a, c)
  {
    var ids, undefined := RecordedIds(names, deps), RecordedUndefined(names, deps);
    var b := RewiredTasks(a, id, ids, undefined);
    EvaluatedShape(b, id, c, runs, silent);
    forall t | t in a && t != id ensures t in c && (Terminal(a[t].state) ==> c[t].state == a[t].state) {
      assert b[t] == RewiredTask(a, id, ids, undefined, t);
      if HasFailedDep(b, id) { CompletedSame(b, c, {id}, t, silent); }
    }
  }

  lemma FailureAbsorbs(a: Tasks, x: TaskID, b: Tasks, silent: set<TaskID>)
    requires FailsTo(a, x, b, silent) && a[x].state != Completed
    ensures a.Keys == b.Keys && KeepsCompleted(a, b) && KeepsFailed(a, b)
  {
    FailsToShape(a, x, b, silent);
    var a1 := a[x := a[x].(state := Failed)];
    forall t | t in a && Terminal(a[t].state) ensures b[t].state == a[t].state {
      CompletedSame(a1, b, a[x].dependedOnBy, t, silent);
    }
  }

  lemma CompletionAbsorbs(a: Tasks, x: TaskID, b: Tasks, runs: TaskID -> bool)
    requires Mid(a) && CompletesTo(a, x, b, runs)
    ensures a.Keys == b.Keys && KeepsCompleted(a, b)
    ensures FailuresJustified(a) ==> KeepsFailed(a, b)
  {
    var a1 := a[x := a[x].(state := Completed)];
    CompletesToShape(a, x, b, runs);
    NotItsOwnDependent(a, x);
    forall t | t in a && a[t].state == Completed ensures b[t].state == Completed {
      PromotedSameDone(a1, b, a[x].dependedOnBy, runs, t);
    }
    if FailuresJustified(a) {
      forall t | t in a && a[t].state == Failed ensures b[t].state == Failed {
        StaysFailed(a, x, b, runs, t);
      }
    }
  }

  // ----- deadlock -----

  /** t waits, perhaps through others, for a task whose listener ignored a failure. */
  ghost predicate WaitsForIgnored(tasks: Tasks, t: TaskID) {
    exists u :: WaitsFor(tasks, t, u, {}) && u in tasks && HasFailedDep(tasks, u)
  }

  lemma IgnoredPrepend(tasks: Tasks, t: TaskID, d: TaskID)
    requires t in tasks && tasks[t].state == WaitingForDeps && d in tasks[t].dependsOn && WaitsForIgnored(tasks, d)
    ensures WaitsForIgnored(tasks, t)
  {
    var u :| WaitsFor(tasks, d, u, {}) && u in tasks && HasFailedDep(tasks, u);
    WaitsForPrepend(tasks, t, d, u, {});
  }

  /** With nothing left to run, nothing undefined and nothing unset, whoever still waits
      depends, transitively, on a dependency cycle or on a task that ignored a failure. */
  lemma DeadlockIsACycle(tasks: Tasks, silent: set<TaskID>, t: TaskID)
    requires Mid(tasks) && AtRest(tasks, silent)
    requires forall u :: u in tasks ==> tasks[u].state in {WaitingForDeps, Completed, Failed}
    requires forall u :: u in tasks && tasks[u].state == WaitingForDeps ==> tasks[u].dependsOnUndefined == {}
    requires t in tasks && tasks[t].state == WaitingForDeps
    ensures Blocked(DependencyGraph(tasks), t) || (silent != {} && WaitsForIgnored(tasks, t))
  {
    var g, s := DependencyGraph(tasks), set u | u in InState(tasks, WaitingForDeps) && !WaitsForIgnored(tasks, u);
    forall u | u in s ensures DependsInto(g, s, u) {
      assert WaitOk(tasks, u, silent);
      var d :| d in tasks[u].dependsOn && !(d in tasks && tasks[d].state == Completed);
      WaitsForSelf(tasks, u, {});
      assert d in tasks && !HasFailedDep(tasks, u);
      if WaitsForIgnored(tasks, d) { IgnoredPrepend(tasks, u, d); }
      assert d in s;
    }
    if t in s {
      StuckSetIsBlocked(g, s, t);
    } else {
      var u :| WaitsFor(tasks, t, u, {}) && u in tasks && HasFailedDep(tasks, u);
      assert WaitOk(tasks, u, silent);
    }
  }

  lemma SameNonTerminal(b: Tasks, c: Tasks)
    requires SameShape(b, c)
    ensures (forall t {:trigger c[t].state} :: t in b ==> c[t].state == b[t].state) ==> NonTerminal(b) == NonTerminal(c)
  {
    assert b.Keys == c.Keys;
  }

  ghost function CompletedIn(tasks: Tasks, s: set<TaskID>): set<TaskID> {
    set d | d in s && d in tasks && tasks[d].state == Completed
  }

  lemma SplitRest(tasks: Tasks, id: TaskID, rest: set<TaskID>, d: TaskID)
    requires Edges(tasks) && id in tasks && rest <= tasks[id].dependsOn && d in rest
    ensures d in tasks
    ensures |CompletedIn(tasks, rest)| == |CompletedIn(tasks, rest - {d})| + (if tasks[d].state == Completed then 1 else 0)
    ensures AnyFailed(tasks, rest) <==> AnyFailed(tasks, rest - {d}) || tasks[d].state == Failed
  {
    if tasks[d].state == Completed {
      assert CompletedIn(tasks, rest) == CompletedIn(tasks, rest - {d}) + {d};
    } else {
      assert CompletedIn(tasks, rest) == CompletedIn(tasks, rest - {d});
    }
    if AnyFailed(tasks, rest - {d}) {
      var e :| e in rest - {d} && e in tasks && tasks[e].state == Failed;
      assert e in rest;
    }
    if AnyFailed(tasks, rest) && tasks[d].state != Failed {
      var e :| e in rest && e in tasks && tasks[e].state == Failed;
      assert e in rest - {d};
    }
  }

  lemma AllCompletedIff(tasks: Tasks, s: set<TaskID>)
    ensures |CompletedIn(tasks, s)| == |s| <==> forall d :: d in s ==> d in tasks && tasks[d].state == Completed
  {
    SubsetSize(CompletedIn(tasks, s), s);
    if forall d :: d in s ==> d in tasks && tasks[d].state == Completed {
      assert CompletedIn(tasks, s) == s;
    }
  }

  ghost predicate AnyFailed(tasks: Tasks, s: set<TaskID>) {
    exists d :: d in s && d in tasks && tasks[d].state == Failed
  }

  lemma ReadyKeepsMid(a: Tasks, x: TaskID, s: TaskState)
    requires Mid(a) && x in a && a[x].state != Completed && AllDone(a, x)
    requires s == Ready || s == Running
    ensures Mid(a[x := a[x].(state := s)])
  {
    var b := a[x := a[x].(state := s)];
    assert x !in a[x].dependsOn;
    assert AllDone(b, x);
    MidAfterChange(a, x, a[x].(state := s));
  }

  /** What the scan of id's dependencies knows of the next one. */
  lemma BeforeReport(before: Tasks, tasks: Tasks, id: TaskID, dep: TaskID, silent: set<TaskID>)
    requires Edges(before) && Cascade(before, tasks, {id}, silent) && id in before && dep in before[id].dependsOn
    ensures dep in before && dep in tasks && id in tasks && dep in tasks[id].dependsOn
    ensures tasks[dep].state == Completed <==> before[dep].state == Completed
    ensures before[dep].state == Failed ==> tasks[dep].state == Failed
    ensures |NonTerminal(tasks)| <= |NonTerminal(before)|
  {
    assert SameTask(before[id], tasks[id]);
    CompletedSame(before, tasks, {id}, dep, silent);
    NonTerminalShrinks(before, tasks, {id}, silent);
  }

  lemma ReportedKeeps(before: Tasks, b: Tasks, c: Tasks, id: TaskID, dep: TaskID, silent: set<TaskID>)
    requires Cascade(before, b, {id}, silent) && Cascade(b, c, {id}, silent) && Mid(c) && id in c
    ensures Mid(Reported(c, id, dep)) && Cascade(before, Reported(c, id, dep), {id}, silent)
    ensures NonTerminal(Reported(c, id, dep)) == NonTerminal(c)
  {
    var d := Reported(c, id, dep);
    CascadeTrans(before, b, c, {id}, {id}, silent);
    CascadeNothing(c, d, {id}, silent);
    CascadeTrans(before, c, d, {id} + {id}, {id}, silent);
    assert {id} + {id} + {id} == {id};
    TaskOkOf(c, id);
    assert AllDone(c, id) ==> AllDone(d, id) by {
      if AllDone(c, id) { AllDoneStays(c, d, id); }
    }
    MidAfterChange(c, id, d[id]);
  }

  /** The entry in failuresReported. */
  function Reported(tasks: Tasks, id: TaskID, dep: TaskID): Tasks
    requires id in tasks
  {
    tasks[id := tasks[id].(failuresReported := tasks[id].failuresReported + {dep})]
  }

  lemma ReportedFlags(c: Tasks, id: TaskID, dep: TaskID, told: set<TaskID>, ctx: Context)
    requires Flags(c, told, ctx) && id in c && (c[id].state == Failed || id in ctx.silent)
    ensures Flags(Reported(c, id, dep), told, ctx)
  {
    var d := Reported(c, id, dep);
    forall t | t in d ensures FlagOk(d[t], t, told, ctx) {
      assert FlagOk(c[t], t, told, ctx);
    }
  }

  lemma ReportedHeld(c: Tasks, id: TaskID, dep: TaskID, held: set<TaskID>)
    requires HeldOk(c, held) && id in c && id !in held
    ensures HeldOk(Reported(c, id, dep), held)
  {
    var d := Reported(c, id, dep);
    forall h | h in held ensures h in d && d[h].state == Failed && Unreported(d, h) {
      var e :| e in c[h].dependsOn && e in c && c[e].state == Failed && e !in c[h].failuresReported;
      assert d[h] == c[h] && d[e].state == Failed;
    }
  }

  // ----- the scan of the dependencies, and whom it enters -----

  ghost predicate NewFailure(tasks: Tasks, id: TaskID, d: TaskID) {
    id in tasks && d in tasks[id].dependsOn && d in tasks && tasks[d].state == Failed && d !in tasks[id].failuresReported
  }

  /** The scan of id's dependencies has called its listener: now the listener has failed its
      task or is silent, and the stack was entered as Reenters says. before, entered0: at the
      begin of the scan. */
  ghost predicate Called(before: Tasks, tasks: Tasks, id: TaskID, held: set<TaskID>, silent: set<TaskID>, entered0: bool, entered: bool) {
    && id in tasks && (tasks[id].state == Failed || id in silent)
    && (entered <==> entered0 || Reenters(before, id, held, silent))
  }

  /** The listener was called, for the first time in this scan (quiet) or again. */
  lemma AfterCall(before: Tasks, b: Tasks, c: Tasks, id: TaskID, held: set<TaskID>, silent: set<TaskID>,
                  quiet: bool, entered0: bool, entered: bool, entered': bool)
    requires quiet ==> b == before && entered == entered0
    requires !quiet ==> Called(before, b, id, held, silent, entered0, entered)
    requires id in c && (c[id].state == Failed || id in silent)
    requires entered' <==> entered || Reenters(b, id, held, silent)
    ensures Called(before, c, id, held, silent, entered0, entered')
  {
    if !quiet {
      NothingToFail(b, id, held, silent);
    }
  }

  /** A scan that had nothing to report: whoever has a failed dependency was told, or is silent. */
  lemma NothingToReport(before: Tasks, id: TaskID, told: set<TaskID>, ctx: Context, held: set<TaskID>)
    requires Flags(before, told, ctx) && id in before && HasFailedDep(before, id)
    requires forall d :: d in before[id].dependsOn ==> !NewFailure(before, id, d)
    requires before[id].state == WaitingForDeps || before[id].state == Failed
    ensures before[id].state == Failed || id in ctx.silent
    ensures HeldOk(before, held) ==> !Reenters(before, id, held, ctx.silent)
  {
    assert FlagOk(before[id], id, told, ctx);
    var e :| e in before[id].dependsOn && e in before && before[e].state == Failed;
    assert !NewFailure(before, id, e);
    NothingToFail(before, id, held, ctx.silent);
  }

  lemma StaysUnreported(a: Tasks, x: TaskID, h: TaskID)
    requires x in a && h in a && Unreported(a, h)
    ensures Unreported(FailedIn(a, x), h)
  {
    var d :| d in a[h].dependsOn && d in a && a[d].state == Failed && d !in a[h].failuresReported;
    assert FailedIn(a, x)[d].state == Failed;
  }

  /** The listener of x goes on the stack and fails x. */
  lemma PushListener(a: Tasks, x: TaskID, held: set<TaskID>)
    requires HeldOk(a, held) && x in a && Unreported(a, x)
    ensures HeldOk(FailedIn(a, x), held + {x})
  {
    forall h | h in held + {x} ensures Unreported(FailedIn(a, x), h) {
      StaysUnreported(a, x, h);
    }
  }

  lemma TellListener(a: Tasks, id: TaskID, told: set<TaskID>, ctx: Context, held: set<TaskID>)
    requires Flags(a, told, ctx) && id in a && id !in told && Unreported(a, id)
    requires a[id].state == WaitingForDeps || a[id].state == Failed
    ensures a[id].state == WaitingForDeps ==> id !in ctx.silent && FlagsBut(a, told + {id}, ctx, id)
    ensures a[id].state == Failed ==> Flags(a, told + {id}, ctx)
    ensures HeldOk(a, held) ==> HeldOk(FailedIn(a, id), held + {id})
  {
    forall t | t in a ensures (t == id && a[id].state == WaitingForDeps) || FlagOk(a[t], t, told + {id}, ctx) {
      assert FlagOk(a[t], t, told, ctx);
    }
    if HeldOk(a, held) { PushListener(a, id, held); }
  }

  /** The listener of id, which waited, has failed it and returns. */
  lemma ListenerReturns(a: Tasks, id: TaskID, b: Tasks, held: set<TaskID>, silent: set<TaskID>)
    requires Edges(a) && id in a && id !in silent && a[id].state == WaitingForDeps && Unreported(a, id)
    requires FailsTo(a, id, b, silent)
    ensures Cascade(a, b, {id}, silent) && b[id].state == Failed
    ensures id in held || AnyReenters(FailedIn(a, id), a[id].dependedOnBy, held + {id}, silent)
            <==> Reenters(a, id, held, silent)
    ensures HeldOk(b, held + {id}) ==> HeldOk(b, held)
  {
    assert HasFailedDep(a, id);
    CascadeEnter(a, id, FailedIn(a, id), b, silent);
    if id !in held { EntryIff(a, id, held, silent); }
  }

  /** A request to fail x, whose listener need not have been told. */
  lemma RequestFlags(a: Tasks, x: TaskID, told: set<TaskID>, byRequest: set<TaskID>)
    requires x in a && Flags(a, told, Context(told, byRequest))
    ensures FlagsBut(a, told, Context(told, byRequest + {x}), x)
  {
    forall t | t in a && t != x ensures FlagOk(a[t], t, told, Context(told, byRequest + {x})) {
      assert FlagOk(a[t], t, told, Context(told, byRequest));
    }
  }

  lemma FailedFlags(a: Tasks, x: TaskID, told: set<TaskID>, ctx: Context)
    requires x in a && FlagsBut(a, told, ctx, x) && (x in told || x in ctx.byRequest)
    ensures Flags(FailedIn(a, x), told, ctx)
  {
    var b := FailedIn(a, x);
    forall t | t in b ensures FlagOk(b[t], t, told, ctx) {
      if t != x {
        assert FlagOk(a[t], t, told, ctx);
      }
    }
  }

  /** With the action handled, the flags set during it count as set. */
  lemma FlagsSettle(tasks: Tasks, told: set<TaskID>, ctx: Context)
    requires Flags(tasks, told, ctx)
    ensures Flags(tasks, told, Context(told, ctx.byRequest))
    ensures AtRest(tasks, ctx.silent) ==> AtRest(tasks, told)
  {
    forall t | t in tasks
      ensures FlagOk(tasks[t], t, told, Context(told, ctx.byRequest))
      ensures AtRest(tasks, ctx.silent) ==> WaitOk(tasks, t, told)
    {
      assert FlagOk(tasks[t], t, told, ctx);
      assert AtRest(tasks, ctx.silent) ==> WaitOk(tasks, t, ctx.silent);
    }
  }

  /** A flag set from outside, between actions, keeps everything. */
  lemma MarkingKeeps(tasks: Tasks, told: set<TaskID>, byRequest: set<TaskID>, more: set<TaskID>)
    requires Flags(tasks, told, Context(told, byRequest)) && AtRest(tasks, told)
    ensures Flags(tasks, told + more, Context(told + more, byRequest)) && AtRest(tasks, told + more)
  {
    forall t | t in tasks
      ensures FlagOk(tasks[t], t, told + more, Context(told + more, byRequest)) && WaitOk(tasks, t, told + more)
    {
      assert FlagOk(tasks[t], t, told, Context(told, byRequest));
      assert WaitOk(tasks, t, told);
    }
  }

  /** Changing the state of a task whose flag does not matter, before or after. */
  lemma FlagsAfterChange(a: Tasks, x: TaskID, s: TaskState, told: set<TaskID>, ctx: Context)
    requires Flags(a, told, ctx) && x in a && Released(s)
    ensures Flags(a[x := a[x].(state := s)], told, ctx)
  {
    var b := a[x := a[x].(state := s)];
    forall t | t in b ensures FlagOk(b[t], t, told, ctx) {
      if t != x {
        assert FlagOk(a[t], t, told, ctx);
      }
    }
  }

  /** The count and the undefined set decide readiness exactly. */
  lemma ReadyIff(before: Tasks, tasks: Tasks, id: TaskID, nComplete: nat, silent: set<TaskID>)
    requires Edges(before) && Cascade(before, tasks, {id}, silent) && id in before
    requires nComplete == |CompletedIn(before, before[id].dependsOn)|
    ensures id in tasks
    ensures nComplete == |tasks[id].dependsOn| && tasks[id].dependsOnUndefined == {} <==> AllDone(before, id)
    ensures AllDone(before, id) ==> !HasFailedDep(before, id)
  {
    assert SameTask(before[id], tasks[id]);
    AllCompletedIff(before, before[id].dependsOn);
  }

  lemma BeforeEvaluation(a: Tasks, b: Tasks, seen: set<TaskID>, id: TaskID, d: TaskID, silent: set<TaskID>)
    requires Cascade(a, b, seen, silent) && Mid(b) && id in a && a[id].state == Failed && d in a[id].dependedOnBy
    ensures d in b && HasFailedDep(b, d)
    ensures b[d].state == WaitingForDeps || b[d].state == Failed
    ensures |NonTerminal(b)| <= |NonTerminal(a)|
  {
    CompletedSame(a, b, seen, id, silent);
    NonTerminalShrinks(a, b, seen, silent);
    assert SameTask(a[id], b[id]);
    DependentOfUnfinished(b, id, d);
  }

  ghost predicate Settled(tasks: Tasks, s: set<TaskID>, silent: set<TaskID>) {
    forall d {:trigger d in s} :: d in s && d in tasks ==> tasks[d].state != WaitingForDeps || d in silent
  }

  lemma SettleNext(a: Tasks, b: Tasks, c: Tasks, seen: set<TaskID>, d: TaskID, silent: set<TaskID>)
    requires Cascade(a, b, seen, silent) && Cascade(b, c, {d}, silent) && Settled(b, seen, silent)
    requires d in c && (c[d].state == Failed || d in silent)
    ensures Cascade(a, c, seen + {d}, silent) && Settled(c, seen + {d}, silent)
  {
    CascadeTrans(a, b, c, seen, {d}, silent);
    forall e | e in seen + {d} && e in c ensures c[e].state != WaitingForDeps || e in silent {
      if e != d {
        assert e in seen;
        assert c[e].state == b[e].state || NewlyFailed(b, c, e);
      }
    }
  }

  lemma AllSettled(a: Tasks, b: Tasks, seen: set<TaskID>, id: TaskID, silent: set<TaskID>)
    requires Cascade(a, b, seen, silent) && Settled(b, seen, silent) && id in a && a[id].state == Failed && seen == a[id].dependedOnBy
    ensures id in b && b[id].state == Failed && DependentsSettled(b, id, silent)
  {
    CompletedSame(a, b, seen, id, silent);
    assert SameTask(a[id], b[id]);
  }

  /** OnTaskReady was called at most once per task, and only for tasks past waiting. */
  ghost predicate OncePerTask(tasks: Tasks, log: seq<TaskID>) {
    && NoDup(log)
    && forall t :: t in log ==> t in tasks && tasks[t].state != DepsUnknown && tasks[t].state != WaitingForDeps
  }

  lemma LogAfterDefinition(a: Tasks, b: Tasks, log: seq<TaskID>, id: TaskID)
    requires id !in a && forall t :: t in a ==> t in b && b[t].state == a[t].state
    ensures OncePerTask(a, log) ==> OncePerTask(b, log)
  {
  }

  lemma RunKeeps(a: Tasks, b: Tasks, id: TaskID, names: Names, requested: map<TaskID, set<string>>, dropped: map<TaskID, set<string>>, silent: set<TaskID>)
    requires id in a && a[id].state == Ready && b == a[id := a[id].(state := Running)]
    requires NameEdges(names, a) && AtRest(a, silent) && NamesTracked(names, a, requested, dropped)
    ensures NameEdges(names, b) && AtRest(b, silent) && NamesTracked(names, b, requested, dropped)
    ensures FailuresJustified(a) ==> FailuresJustified(b)
    ensures forall log {:trigger OncePerTask(b, log)} :: OncePerTask(a, log) ==> OncePerTask(b, log)
  {
    NameEdgesSameShape(names, a, b);
    TrackedSameShape(names, a, b, requested, dropped);
    forall t | t in b ensures WaitOk(b, t, silent) && (FailuresJustified(a) ==> FailureOk(b, t)) {
      assert WaitOk(a, t, silent);
      assert FailuresJustified(a) ==> FailureOk(a, t);
      assert AllDone(a, t) <==> AllDone(b, t);
      assert HasFailedDep(a, t) <==> HasFailedDep(b, t);
    }
  }

  lemma RecordedIdsExist(names: Names, tasks: Tasks, deps: set<string>)
    requires NameEdges(names, tasks)
    ensures RecordedIds(names, deps) <= tasks.Keys
  {
  }

  /** What HandleSetDependencies makes of the tasks. */
  ghost predicate SetDependenciesTo(names: Names, a: Tasks, id: TaskID, deps: set<string>, c: Tasks, runs: TaskID -> bool, silent: set<TaskID>) {
    && id in a
    && EvaluatedTo(RewiredTasks(a, id, RecordedIds(names, deps), RecordedUndefined(names, deps)), id, c, runs, silent)
  }

  ghost predicate EvaluatedTo(b: Tasks, id: TaskID, c: Tasks, runs: TaskID -> bool, silent: set<TaskID>) {
    && id in b && id in c
    && if HasFailedDep(b, id) then Cascade(b, c, {id}, silent) && (c[id].state == Failed || id in silent)
       else c == if AllDone(b, id) then b[id := b[id].(state := ReadyState(runs, id))] else b
  }

  lemma EvaluatedShape(b: Tasks, id: TaskID, c: Tasks, runs: TaskID -> bool, silent: set<TaskID>)
    requires EvaluatedTo(b, id, c, runs, silent)
    ensures SameShape(b, c)
  {
    forall t | t in b ensures t in c && SameTask(b[t], c[t]) { }
    assert b.Keys == c.Keys;
  }

  /** After dependencies were set the tasks are at rest again. */
  lemma SetDependenciesRests(a: Tasks, id: TaskID, ids: set<TaskID>, undefined: set<string>, c: Tasks, runs: TaskID -> bool, silent: set<TaskID>)
    requires Mid(a) && AtRest(a, silent) && id in a && ids <= a.Keys
    requires a[id].state == DepsUnknown || a[id].state == WaitingForDeps
    requires EvaluatedTo(RewiredTasks(a, id, ids, undefined), id, c, runs, silent)
    ensures AtRest(c, silent)
  {
    var b := RewiredTasks(a, id, ids, undefined);
    RewiredEdges(a, id, ids, undefined);
    forall t | t in b && t != id ensures WaitOk(b, t, silent) {
      assert WaitOk(a, t, silent);
      RewiredOthers(a, id, ids, undefined, t);
    }
    if HasFailedDep(b, id) {
      SettledAtRest(b, c, {id}, silent);
    } else {
      forall t | t in c ensures WaitOk(c, t, silent) {
        ReadyChangesNothing(b, id, c, runs, t, silent);
      }
    }
  }

  /** A task that becomes ready is neither completed nor failed, for anybody. */
  lemma ReadyChangesNothing(b: Tasks, id: TaskID, c: Tasks, runs: TaskID -> bool, t: TaskID, silent: set<TaskID>)
    requires EvaluatedTo(b, id, c, runs, silent) && !HasFailedDep(b, id) && b[id].state == WaitingForDeps && t in b
    ensures t in c && (AllDone(c, t) <==> AllDone(b, t)) && (HasFailedDep(c, t) <==> HasFailedDep(b, t))
    ensures t != id ==> c[t] == b[t]
    ensures AllDone(b, id) ==> Released(c[id].state)
    ensures !AllDone(b, id) ==> c == b
  {
    forall d | d in b ensures (c[d].state == Completed <==> b[d].state == Completed) && (c[d].state == Failed <==> b[d].state == Failed) { }
  }

  lemma SetDependenciesJustified(a: Tasks, id: TaskID, ids: set<TaskID>, undefined: set<string>, c: Tasks, runs: TaskID -> bool, silent: set<TaskID>)
    requires Mid(a) && FailuresJustified(a) && id in a && ids <= a.Keys
    requires a[id].state == DepsUnknown || a[id].state == WaitingForDeps
    requires EvaluatedTo(RewiredTasks(a, id, ids, undefined), id, c, runs, silent)
    ensures FailuresJustified(c)
  {
    var b := RewiredTasks(a, id, ids, undefined);
    assert b[id] == RewiredTask(a, id, ids, undefined, id);
    forall t | t in b ensures FailureOk(b, t) && FailureOk(c, t) {
      assert FailureOk(a, t);
      if t != id { RewiredOthers(a, id, ids, undefined, t); }
      if HasFailedDep(b, id) {
        JustifiedAfterCascade(b, c, {id}, t, silent);
      } else {
        ReadyChangesNothing(b, id, c, runs, t, silent);
      }
    }
    EvaluatedShape(b, id, c, runs, silent);
  }

  lemma SetDependenciesLog(a: Tasks, id: TaskID, ids: set<TaskID>, undefined: set<string>, c: Tasks, runs: TaskID -> bool,
                           log: seq<TaskID>, log': seq<TaskID>, silent: set<TaskID>)
    requires id in a && (a[id].state == DepsUnknown || a[id].state == WaitingForDeps)
    requires OncePerTask(a, log)
    requires EvaluatedTo(RewiredTasks(a, id, ids, undefined), id, c, runs, silent)
    requires log' == if !HasFailedDep(RewiredTasks(a, id, ids, undefined), id) && AllDone(RewiredTasks(a, id, ids, undefined), id)
                     then log + [id] else log
    ensures OncePerTask(c, log')
  {
    var b := RewiredTasks(a, id, ids, undefined);
    assert id !in log;
    forall t | t in log ensures t in c && c[t].state != DepsUnknown && c[t].state != WaitingForDeps {
      assert b[t] == RewiredTask(a, id, ids, undefined, t);
      if HasFailedDep(b, id) { CompletedSame(b, c, {id}, t, silent); }
    }
  }

  lemma RewiredCount(a: Tasks, id: TaskID, ids: set<TaskID>, undefined: set<string>)
    requires id in a && (a[id].state == DepsUnknown || a[id].state == WaitingForDeps)
    ensures NonTerminal(RewiredTasks(a, id, ids, undefined)) == NonTerminal(a)
  {
    var b := RewiredTasks(a, id, ids, undefined);
    forall t | t in a ensures t in b && (Terminal(b[t].state) <==> Terminal(a[t].state)) {
      assert b[t] == RewiredTask(a, id, ids, undefined, t);
    }
    assert b.Keys == a.Keys;
  }

  // ----- failure -----

  lemma FailsToShape(a: Tasks, x: TaskID, b: Tasks, silent: set<TaskID>)
    requires FailsTo(a, x, b, silent)
    ensures SameShape(a, b)
  {
    var a1 := a[x := a[x].(state := Failed)];
    forall t | t in a ensures SameTask(a[t], b[t]) {
      assert SameTask(a1[t], b[t]);
    }
    assert a1.Keys == b.Keys;
  }

  lemma FailureKeepsRelations(a: Tasks, x: TaskID, b: Tasks, names: Names, requested: map<TaskID, set<string>>, dropped: map<TaskID, set<string>>, silent: set<TaskID>)
    requires FailsTo(a, x, b, silent) && NameEdges(names, a) && NamesTracked(names, a, requested, dropped)
    ensures NameEdges(names, b) && NamesTracked(names, b, requested, dropped)
  {
    FailsToShape(a, x, b, silent);
    NameEdgesSameShape(names, a, b);
    TrackedSameShape(names, a, b, requested, dropped);
  }

  lemma FailureKeepsLog(a: Tasks, x: TaskID, b: Tasks, log: seq<TaskID>, silent: set<TaskID>)
    requires FailsTo(a, x, b, silent) && OncePerTask(a, log)
    ensures OncePerTask(b, log)
  {
    var a1 := a[x := a[x].(state := Failed)];
    forall t | t in log ensures t in b && b[t].state != DepsUnknown && b[t].state != WaitingForDeps {
      CompletedSame(a1, b, a[x].dependedOnBy, t, silent);
    }
  }

  lemma FailureKeeps(names: Names, a: Tasks, x: TaskID, b: Tasks, told: set<TaskID>, ctx: Context,
                     requested: map<TaskID, set<string>>, dropped: map<TaskID, set<string>>)
    requires Mid(a) && AtRest(a, ctx.silent) && NameEdges(names, a) && NamesTracked(names, a, requested, dropped)
    requires FailsTo(a, x, b, ctx.silent) && a[x].state != Completed && Mid(b) && Flags(b, told, ctx)
    ensures Consistent(names, b, told, ctx.byRequest, requested, dropped)
  {
    FailureKeepsRelations(a, x, b, names, requested, dropped, ctx.silent);
    FailureLeavesRest(a, x, b, ctx.silent);
    FlagsSettle(b, told, ctx);
  }

  // ----- completion -----

  lemma CompletedKeepsMid(a: Tasks, x: TaskID)
    requires Mid(a) && x in a && a[x].state == Running
    ensures Mid(a[x := a[x].(state := Completed)])
  {
    var b := a[x := a[x].(state := Completed)];
    TaskOkOf(a, x);
    assert AllDone(b, x);
    MidAfterChange(a, x, a[x].(state := Completed));
  }

  lemma BeforePromotion(a: Tasks, x: TaskID, b: Tasks, seen: set<TaskID>, runs: TaskID -> bool, d: TaskID)
    requires Mid(a) && x in a && a[x].state == Running
    requires Promoted(a[x := a[x].(state := Completed)], b, seen, runs)
    requires d in a[x].dependedOnBy && d !in seen
    ensures d in b && (b[d].state == WaitingForDeps || b[d].state == Failed)
    ensures b[d].state == a[d].state
  {
    DependentOfUnfinished(a, x, d);
    assert d != x;
  }

  lemma CascadeFromFailed(b: Tasks, c: Tasks, d: TaskID, silent: set<TaskID>)
    requires Cascade(b, c, {d}, silent) && d in b && (b[d].state == Failed || d in silent)
    ensures forall t :: t in b ==> c[t].state == b[t].state
  {
    forall t | t in b ensures c[t].state == b[t].state {
      NobodyWaitsForFailed(b, t, d, silent);
      assert NewlyFailed(b, c, t) ==> CausedBy(b, c, {d}, t, silent);
    }
  }

  lemma NobodyWaitsForFailed(b: Tasks, t: TaskID, d: TaskID, silent: set<TaskID>)
    requires d in b && (b[d].state == Failed || d in silent)
    ensures !WaitsFor(b, t, d, silent)
  {
    forall p | WaitChain(b, p, silent) ensures p[|p| - 1] != d {
      assert b[p[|p| - 1]].state == WaitingForDeps;
    }
  }

  /** During a completion an evaluated dependent is promoted or left alone; nobody fails. */
  lemma AfterEvaluation(a: Tasks, x: TaskID, b: Tasks, seen: set<TaskID>, runs: TaskID -> bool, d: TaskID, c: Tasks, silent: set<TaskID>)
    requires Mid(a) && AtRest(a, silent) && x in a && a[x].state == Running
    requires Promoted(a[x := a[x].(state := Completed)], b, seen, runs) && seen <= a[x].dependedOnBy
    requires d in a[x].dependedOnBy && d !in seen
    requires EvaluatedTo(b, d, c, runs, silent)
    ensures SameShape(b, c)
    ensures forall t {:trigger c[t].state} :: t in b ==> c[t].state == if t == d && AllDone(b, d) then ReadyState(runs, d) else b[t].state
    ensures HasFailedDep(b, d) ==> !AllDone(b, d)
  {
    EvaluatedShape(b, d, c, runs, silent);
    BeforePromotion(a, x, b, seen, runs, d);
    if HasFailedDep(b, d) {
      FailedDepBefore(a, x, b, seen, runs, d, silent);
      CascadeFromFailed(b, c, d, silent);
    }
  }

  lemma FailedDepBefore(a: Tasks, x: TaskID, b: Tasks, seen: set<TaskID>, runs: TaskID -> bool, d: TaskID, silent: set<TaskID>)
    requires Mid(a) && AtRest(a, silent) && x in a && a[x].state == Running
    requires Promoted(a[x := a[x].(state := Completed)], b, seen, runs) && seen <= a[x].dependedOnBy
    requires d in a && d in b && b[d].state == a[d].state && HasFailedDep(b, d)
    requires b[d].state == WaitingForDeps || b[d].state == Failed
    ensures b[d].state == Failed || d in silent
  {
    var a1 := a[x := a[x].(state := Completed)];
    var e :| e in b[d].dependsOn && e in b && b[e].state == Failed;
    assert SameTask(a1[d], b[d]);
    assert b[e].state == if e in seen && AllDone(a1, e) then ReadyState(runs, e) else a1[e].state;
    assert a[e].state == Failed;
    assert WaitOk(a, d, silent);
  }

  /** log is log0 followed by one announcement of each promoted task of seen, and no other. */
  ghost predicate Announced(a: Tasks, seen: set<TaskID>, log0: seq<TaskID>, log: seq<TaskID>) {
    && |log0| <= |log| && log[..|log0|] == log0
    && NoDup(log[|log0|..])
    && forall t :: t in log[|log0|..] <==> t in seen && t in a && AllDone(a, t)
  }

  lemma AnnounceNext(a: Tasks, seen: set<TaskID>, log0: seq<TaskID>, log: seq<TaskID>, d: TaskID, log': seq<TaskID>)
    requires Announced(a, seen, log0, log) && d in a && d !in seen
    requires log' == if AllDone(a, d) then log + [d] else log
    ensures Announced(a, seen + {d}, log0, log')
  {
    if log' == log + [d] {
      assert log'[|log0|..] == log[|log0|..] + [d];
      assert log'[..|log0|] == log0;
    }
  }

  lemma NextPromotion(a: Tasks, x: TaskID, b: Tasks, seen: set<TaskID>, runs: TaskID -> bool, d: TaskID, c: Tasks,
                      log0: seq<TaskID>, log: seq<TaskID>, log': seq<TaskID>)
    requires x in a && d in a && d in b && d !in seen && SameShape(b, c)
    requires forall q :: q in a[x].dependedOnBy ==> q in a && a[q].state != Completed && q != x
    requires seen <= a[x].dependedOnBy
    requires Promoted(a[x := a[x].(state := Completed)], b, seen, runs)
    requires forall t {:trigger c[t].state} :: t in b ==> c[t].state == if t == d && AllDone(b, d) then ReadyState(runs, d) else b[t].state
    requires Announced(a[x := a[x].(state := Completed)], seen, log0, log)
    requires log' == if AllDone(b, d) then log + [d] else log
    ensures Promoted(a[x := a[x].(state := Completed)], c, seen + {d}, runs)
    ensures Announced(a[x := a[x].(state := Completed)], seen + {d}, log0, log')
  {
    var a1 := a[x := a[x].(state := Completed)];
    PromoteNext(a1, b, seen, runs, d, c);
    PromotedSameDone(a1, b, seen, runs, d);
    AnnounceNext(a1, seen, log0, log, d, log');
  }

  lemma CompletesToShape(a: Tasks, x: TaskID, b: Tasks, runs: TaskID -> bool)
    requires CompletesTo(a, x, b, runs)
    ensures SameShape(a, b)
  {
    var a1 := a[x := a[x].(state := Completed)];
    forall t | t in a ensures SameTask(a[t], b[t]) {
      assert SameTask(a1[t], b[t]);
    }
    assert a1.Keys == b.Keys;
  }

  lemma CompletionKeepsRelations(a: Tasks, x: TaskID, b: Tasks, runs: TaskID -> bool, names: Names,
                                 requested: map<TaskID, set<string>>, dropped: map<TaskID, set<string>>)
    requires CompletesTo(a, x, b, runs) && NameEdges(names, a) && NamesTracked(names, a, requested, dropped)
    ensures NameEdges(names, b) && NamesTracked(names, b, requested, dropped)
  {
    CompletesToShape(a, x, b, runs);
    NameEdgesSameShape(names, a, b);
    TrackedSameShape(names, a, b, requested, dropped);
  }

  lemma CompletionKeeps(names: Names, a: Tasks, x: TaskID, b: Tasks, runs: TaskID -> bool, told: set<TaskID>, ctx: Context,
                        requested: map<TaskID, set<string>>, dropped: map<TaskID, set<string>>)
    requires Mid(a) && AtRest(a, ctx.silent) && NameEdges(names, a) && NamesTracked(names, a, requested, dropped)
    requires CompletesTo(a, x, b, runs) && Mid(b) && Flags(b, told, ctx)
    ensures Consistent(names, b, told, ctx.byRequest, requested, dropped)
  {
    CompletionLeavesRest(a, x, b, runs, ctx.silent);
    FlagsSettle(b, told, ctx);
    CompletionKeepsRelations(a, x, b, runs, names, requested, dropped);
  }

  lemma CompletionKeepsDiscipline(a: Tasks, x: TaskID, b: Tasks, runs: TaskID -> bool, log: seq<TaskID>, log': seq<TaskID>)
    requires Mid(a) && FailuresJustified(a) && CompletesTo(a, x, b, runs)
    requires OncePerTask(a, log) && Announced(a[x := a[x].(state := Completed)], a[x].dependedOnBy, log, log')
    ensures FailuresJustified(b)
    ensures |NonTerminal(b)| == |NonTerminal(a)| - 1
    ensures OncePerTask(b, log')
  {
    CompletionKeepsJustified(a, x, b, runs);
    CompletionCount(a, x, b, runs);
    CompletionLog(a, x, b, runs, log, log');
  }

  lemma CompletionCount(a: Tasks, x: TaskID, b: Tasks, runs: TaskID -> bool)
    requires Mid(a) && CompletesTo(a, x, b, runs) && InState(b, Failed) == InState(a, Failed)
    ensures |NonTerminal(b)| == |NonTerminal(a)| - 1
  {
    var a1 := a[x := a[x].(state := Completed)];
    NotItsOwnDependent(a, x);
    CompletesToShape(a, x, b, runs);
    forall t | t in a ensures t in NonTerminal(b) <==> t in NonTerminal(a) && t != x {
      PromotedSameDone(a1, b, a[x].dependedOnBy, runs, t);
      assert t in InState(b, Failed) <==> t in InState(a, Failed);
    }
    assert NonTerminal(a) == NonTerminal(b) + {x};
  }

  lemma CompletionLog(a: Tasks, x: TaskID, b: Tasks, runs: TaskID -> bool, log: seq<TaskID>, log': seq<TaskID>)
    requires Mid(a) && FailuresJustified(a) && CompletesTo(a, x, b, runs)
    requires OncePerTask(a, log) && Announced(a[x := a[x].(state := Completed)], a[x].dependedOnBy, log, log')
    ensures OncePerTask(b, log')
  {
    var a1 := a[x := a[x].(state := Completed)];
    var added := log'[|log|..];
    assert log' == log + added;
    forall t | t in added ensures t !in log && t in b && Released(b[t].state) {
      DependentOfUnfinished(a, x, t);
      assert FailureOk(a, t);
      JustifiedIsNotRevived(a, x, t);
      assert b[t].state == ReadyState(runs, t);
    }
    NoDupConcat(log, added);
    forall t | t in log' ensures t in b && b[t].state != DepsUnknown && b[t].state != WaitingForDeps {
      assert t in log || t in added;
      if t in log {
        assert b[t].state == if t in a[x].dependedOnBy && AllDone(a1, t) then ReadyState(runs, t) else a1[t].state;
      }
    }
  }

  // ----- whole handlers on values -----

  lemma DefinitionKeeps(names: Names, tasks: Tasks, told: set<TaskID>, byRequest: set<TaskID>, requested: map<TaskID, set<string>>, dropped: map<TaskID, set<string>>,
                        log: seq<TaskID>, waiting: int, id: TaskID, n: string)
    requires Consistent(names, tasks, told, byRequest, requested, dropped) && id !in tasks && Definable(names, n)
    ensures var b := ResolvedTasks(tasks, id, n, WaitingOn(names, n));
            && Consistent(names[n := Defined(id)], b, told, byRequest, requested, dropped)
            && (Orderly(tasks, log, waiting) ==> Orderly(b, log, waiting + 1))
  {
    var b := ResolvedTasks(tasks, id, n, WaitingOn(names, n));
    ResolvedRest(names, tasks, id, n, told);
    ResolvedMid(names, tasks, id, n);
    ResolvedFlags(tasks, told, byRequest, id, n, WaitingOn(names, n));
    ResolvedNameEdges(names, tasks, id, n);
    TrackedAfterDefinition(names, tasks, requested, dropped, id, n);
    forall t | t in tasks ensures t in b && b[t].state == tasks[t].state {
      ResolvedOthers(names, tasks, id, n, t);
    }
    LogAfterDefinition(tasks, b, log, id);
    assert |NonTerminal(tasks) + {id}| == |NonTerminal(tasks)| + 1;
  }

  lemma PendingDependentsExist(names: Names, tasks: Tasks, n: string)
    requires NameEdges(names, tasks)
    ensures WaitingOn(names, n) <= tasks.Keys
  {
    forall t | t in WaitingOn(names, n) ensures t in tasks {
      WaitingOnHas(names, tasks, n, t);
    }
  }

  lemma RewiringKeeps(names: Names, a: Tasks, told: set<TaskID>, byRequest: set<TaskID>, requested: map<TaskID, set<string>>, dropped: map<TaskID, set<string>>,
                      id: TaskID, deps: set<string>)
    requires Consistent(names, a, told, byRequest, requested, dropped) && id in a
    requires a[id].state == DepsUnknown || a[id].state == WaitingForDeps
    ensures RecordedIds(names, deps) <= a.Keys
    ensures var ids, undefined := RecordedIds(names, deps), RecordedUndefined(names, deps);
            && Mid(RewiredTasks(a, id, ids, undefined))
            && Flags(RewiredTasks(a, id, ids, undefined), told, Context(told, byRequest))
            && NameEdges(RewiredNames(WithNewNames(names, deps), id, undefined), RewiredTasks(a, id, ids, undefined))
            && NamesTracked(RewiredNames(WithNewNames(names, deps), id, undefined), RewiredTasks(a, id, ids, undefined),
                            requested[id := deps], dropped[id := Dropped(names, deps)])
            && NonTerminal(RewiredTasks(a, id, ids, undefined)) == NonTerminal(a)
            && RewiredTasks(a, id, ids, undefined)[id].state == WaitingForDeps
  {
    var ids, undefined := RecordedIds(names, deps), RecordedUndefined(names, deps);
    RecordedIdsExist(names, a, deps);
    NewNamesNameEdges(names, a, deps);
    RewiredMid(a, id, ids, undefined);
    RewiredFlags(a, told, byRequest, id, ids, undefined);
    RewiredNameEdges(WithNewNames(names, deps), a, id, ids, undefined);
    TrackedAfterRewiring(names, a, requested, dropped, id, deps);
    RewiredCount(a, id, ids, undefined);
    assert RewiredTasks(a, id, ids, undefined)[id] == RewiredTask(a, id, ids, undefined, id);
  }

  lemma EvaluationKeeps(names: Names, names': Names, a: Tasks, told: set<TaskID>, told': set<TaskID>, byRequest: set<TaskID>,
                        requested': map<TaskID, set<string>>, dropped': map<TaskID, set<string>>,
                        id: TaskID, deps: set<string>, c: Tasks, runs: TaskID -> bool)
    requires Mid(a) && AtRest(a, told) && NameEdges(names, a) && id in a
    requires a[id].state == DepsUnknown || a[id].state == WaitingForDeps
    requires SetDependenciesTo(names, a, id, deps, c, runs, told) && Mid(c) && Flags(c, told', Context(told, byRequest))
    requires NameEdges(names', RewiredTasks(a, id, RecordedIds(names, deps), RecordedUndefined(names, deps)))
    requires NamesTracked(names', RewiredTasks(a, id, RecordedIds(names, deps), RecordedUndefined(names, deps)), requested', dropped')
    ensures Consistent(names', c, told', byRequest, requested', dropped')
  {
    var ids, undefined := RecordedIds(names, deps), RecordedUndefined(names, deps);
    var b := RewiredTasks(a, id, ids, undefined);
    RecordedIdsExist(names, a, deps);
    SetDependenciesRests(a, id, ids, undefined, c, runs, told);
    FlagsSettle(c, told', Context(told, byRequest));
    EvaluatedShape(b, id, c, runs, told);
    NameEdgesSameShape(names', b, c);
    TrackedSameShape(names', b, c, requested', dropped');
  }

  lemma EvaluationKeepsOrder(a: Tasks, id: TaskID, ids: set<TaskID>, undefined: set<string>, c: Tasks,
                             runs: TaskID -> bool, log: seq<TaskID>, log': seq<TaskID>, silent: set<TaskID>)
    requires Mid(a) && FailuresJustified(a) && OncePerTask(a, log) && id in a && ids <= a.Keys
    requires a[id].state == DepsUnknown || a[id].state == WaitingForDeps
    requires EvaluatedTo(RewiredTasks(a, id, ids, undefined), id, c, runs, silent)
    requires log' == if !HasFailedDep(RewiredTasks(a, id, ids, undefined), id) && AllDone(RewiredTasks(a, id, ids, undefined), id)
                     then log + [id] else log
    ensures FailuresJustified(c) && OncePerTask(c, log')
    ensures !HasFailedDep(RewiredTasks(a, id, ids, undefined), id) ==> NonTerminal(c) == NonTerminal(a)
    ensures NonTerminal(RewiredTasks(a, id, ids, undefined)) == NonTerminal(a)
  {
    var b := RewiredTasks(a, id, ids, undefined);
    SetDependenciesJustified(a, id, ids, undefined, c, runs, silent);
    SetDependenciesLog(a, id, ids, undefined, c, runs, log, log', silent);
    RewiredCount(a, id, ids, undefined);
    assert b[id] == RewiredTask(a, id, ids, undefined, id);
    if !HasFailedDep(b, id) {
      assert NonTerminal(c) == NonTerminal(b);
    }
  }

  lemma SettingKeeps(names: Names, a: Tasks, told: set<TaskID>, byRequest: set<TaskID>,
                     requested: map<TaskID, set<string>>, dropped: map<TaskID, set<string>>,
                     id: TaskID, deps: set<string>, c: Tasks, told': set<TaskID>, runs: TaskID -> bool)
    requires Consistent(names, a, told, byRequest, requested, dropped) && id in a && Settable(a[id].state)
    requires SetDependenciesTo(names, a, id, deps, c, runs, told) && Mid(c) && Flags(c, told', Context(told, byRequest))
    ensures Consistent(RewiredNames(WithNewNames(names, deps), id, RecordedUndefined(names, deps)), c, told', byRequest,
                       requested[id := deps], dropped[id := Dropped(names, deps)])
  {
    RewiringKeeps(names, a, told, byRequest, requested, dropped, id, deps);
    EvaluationKeeps(names, RewiredNames(WithNewNames(names, deps), id, RecordedUndefined(names, deps)), a, told, told', byRequest,
                    requested[id := deps], dropped[id := Dropped(names, deps)], id, deps, c, runs);
  }

  /** The announcement that setting the dependencies causes. */
  ghost function NewlyReady(names: Names, a: Tasks, id: TaskID, deps: set<string>): seq<TaskID> {
    var b := RewiredTasks(a, id, RecordedIds(names, deps), RecordedUndefined(names, deps));
    if id in b && !HasFailedDep(b, id) && AllDone(b, id) then [id] else []
  }

  lemma SettingKeepsOrder(names: Names, a: Tasks, told: set<TaskID>, log: seq<TaskID>, id: TaskID, deps: set<string>,
                          c: Tasks, runs: TaskID -> bool, log': seq<TaskID>)
    requires Mid(a) && NameEdges(names, a) && FailuresJustified(a) && OncePerTask(a, log)
    requires id in a && Settable(a[id].state) && SetDependenciesTo(names, a, id, deps, c, runs, told)
    requires log' == log + NewlyReady(names, a, id, deps)
    ensures FailuresJustified(c) && OncePerTask(c, log')
  {
    RecordedIdsExist(names, a, deps);
    EvaluationKeepsOrder(a, id, RecordedIds(names, deps), RecordedUndefined(names, deps), c, runs, log, log', told);
  }

  lemma SameCount(b: Tasks, id: TaskID, c: Tasks, runs: TaskID -> bool, silent: set<TaskID>)
    requires EvaluatedTo(b, id, c, runs, silent) && !HasFailedDep(b, id) && b[id].state == WaitingForDeps
    ensures NonTerminal(c) == NonTerminal(b)
  {
  }

  /** One of the new dependencies has failed already. */
  ghost predicate FailsAtOnce(names: Names, a: Tasks, id: TaskID, deps: set<string>) {
    var b := RewiredTasks(a, id, RecordedIds(names, deps), RecordedUndefined(names, deps));
    id in b && HasFailedDep(b, id)
  }

  /** Setting the dependencies calls the listener of id, and that leads to a second entry. */
  ghost predicate SettingReenters(names: Names, a: Tasks, id: TaskID, deps: set<string>, silent: set<TaskID>) {
    var b := RewiredTasks(a, id, RecordedIds(names, deps), RecordedUndefined(names, deps));
    FailsAtOnce(names, a, id, deps) && WaitingCycle(b, id, silent)
  }

  // ----- whole actions -----

  /** What the startup executor and the listeners' flags are between two actions. */
  datatype Snapshot = Snapshot(names: Names, tasks: Tasks, told: set<TaskID>, byRequest: set<TaskID>)

  ghost predicate Sound(s: Snapshot) {
    && Mid(s.tasks)
    && Flags(s.tasks, s.told, Context(s.told, s.byRequest))
    && NameEdges(s.names, s.tasks)
    && AtRest(s.tasks, s.told)
  }

  /** With the new dependencies recorded and not yet evaluated. */
  ghost predicate Recorded(s: Snapshot, id: TaskID, deps: set<string>) {
    var b := RewiredTasks(s.tasks, id, RecordedIds(s.names, deps), RecordedUndefined(s.names, deps));
    && RecordedIds(s.names, deps) <= s.tasks.Keys
    && Mid(b) && Flags(b, s.told, Context(s.told, s.byRequest)) && NonTerminal(b) == NonTerminal(s.tasks)
    && id in b && b[id].state == WaitingForDeps
  }

  lemma RewiredSteady(s: Snapshot, id: TaskID, deps: set<string>)
    requires Sound(s) && id in s.tasks && Settable(s.tasks[id].state)
    ensures Recorded(s, id, deps)
  {
    var ids, undefined := RecordedIds(s.names, deps), RecordedUndefined(s.names, deps);
    RecordedIdsExist(s.names, s.tasks, deps);
    RewiredMid(s.tasks, id, ids, undefined);
    RewiredFlags(s.tasks, s.told, s.byRequest, id, ids, undefined);
    RewiredCount(s.tasks, id, ids, undefined);
    assert RewiredTasks(s.tasks, id, ids, undefined)[id] == RewiredTask(s.tasks, id, ids, undefined, id);
  }

  /** The action is carried out, not refused or thrown out. */
  ghost predicate Accepted(s: Snapshot, action: Action) {
    match action
    case DefineTask(_, name) => Definable(s.names, name)
    case SetDependencies(id, _) => id in s.tasks && Settable(s.tasks[id].state)
    case RunTask(id) => id in s.tasks && s.tasks[id].state == Ready
    case CompleteTask(id, success) =>
      id in s.tasks && if success then s.tasks[id].state == Running else Failable(s.tasks[id].state)
  }

  ghost predicate ActsTo(s: Snapshot, action: Action, s': Snapshot, runs: TaskID -> bool) {
    && Mid(s'.tasks) && Flags(s'.tasks, s'.told, Context(s.told, s'.byRequest))
    && (!Accepted(s, action) ==> s' == s)
    && (Accepted(s, action) ==>
          match action
          case DefineTask(id, name) =>
            s' == s.(names := s.names[name := Defined(id)], tasks := ResolvedTasks(s.tasks, id, name, WaitingOn(s.names, name)))
          case SetDependencies(id, deps) =>
            && s'.names == RewiredNames(WithNewNames(s.names, deps), id, RecordedUndefined(s.names, deps))
            && SetDependenciesTo(s.names, s.tasks, id, deps, s'.tasks, runs, s.told)
            && s'.byRequest == s.byRequest
          case RunTask(id) =>
            s' == s.(tasks := s.tasks[id := s.tasks[id].(state := Running)])
          case CompleteTask(id, success) =>
            && s'.names == s.names
            && if success then CompletesTo(s.tasks, id, s'.tasks, runs) && s'.byRequest == s.byRequest
               else FailsTo(s.tasks, id, s'.tasks, s.told) && s'.byRequest == s.byRequest + {id})
  }

  /** The action enters a listener that is still on the call stack. */
  ghost predicate ActionReenters(s: Snapshot, action: Action) {
    Accepted(s, action) &&
    match action
    case SetDependencies(id, deps) => SettingReenters(s.names, s.tasks, id, deps, s.told)
    case CompleteTask(id, success) => !success && DoomedCycle(s.tasks, id, s.told)
    case _ => false
  }

  lemma SettingKeepsSound(s: Snapshot, id: TaskID, deps: set<string>, s': Snapshot, runs: TaskID -> bool)
    requires Sound(s) && ActsTo(s, SetDependencies(id, deps), s', runs) && Accepted(s, SetDependencies(id, deps))
    ensures NameEdges(s'.names, s'.tasks) && AtRest(s'.tasks, s.told)
  {
    var ids, undefined := RecordedIds(s.names, deps), RecordedUndefined(s.names, deps);
    RecordedIdsExist(s.names, s.tasks, deps);
    NewNamesNameEdges(s.names, s.tasks, deps);
    RewiredNameEdges(WithNewNames(s.names, deps), s.tasks, id, ids, undefined);
    SetDependenciesRests(s.tasks, id, ids, undefined, s'.tasks, runs, s.told);
    EvaluatedShape(RewiredTasks(s.tasks, id, ids, undefined), id, s'.tasks, runs, s.told);
    NameEdgesSameShape(s'.names, RewiredTasks(s.tasks, id, ids, undefined), s'.tasks);
  }

  lemma RunningKeepsSound(s: Snapshot, id: TaskID, b: Tasks)
    requires Sound(s) && id in s.tasks && s.tasks[id].state == Ready && b == s.tasks[id := s.tasks[id].(state := Running)]
    ensures NameEdges(s.names, b) && AtRest(b, s.told)
  {
    assert NamesTracked(s.names, s.tasks, map[], map[]);
    RunKeeps(s.tasks, b, id, s.names, map[], map[], s.told);
  }

  /** No action, accepted or not, leaves a waiting task with a failed dependency, unless its
      listener was silent before. */
  lemma ActKeepsSound(s: Snapshot, action: Action, s': Snapshot, runs: TaskID -> bool)
    requires Sound(s) && ActsTo(s, action, s', runs)
    requires action.DefineTask? ==> action.id !in s.tasks
    ensures Sound(s') && AtRest(s'.tasks, s.told)
  {
    if Accepted(s, action) {
      match action
      case DefineTask(id, name) =>
        ResolvedRest(s.names, s.tasks, id, name, s.told);
        ResolvedNameEdges(s.names, s.tasks, id, name);
      case SetDependencies(id, deps) =>
        SettingKeepsSound(s, id, deps, s', runs);
      case RunTask(id) =>
        RunningKeepsSound(s, id, s'.tasks);
      case CompleteTask(id, success) =>
        if success {
          CompletionLeavesRest(s.tasks, id, s'.tasks, runs, s.told);
          CompletesToShape(s.tasks, id, s'.tasks, runs);
        } else {
          FailureLeavesRest(s.tasks, id, s'.tasks, s.told);
          FailsToShape(s.tasks, id, s'.tasks, s.told);
        }
        NameEdgesSameShape(s.names, s.tasks, s'.tasks);
    }
    FlagsSettle(s'.tasks, s'.told, Context(s.told, s'.byRequest));
  }

  // ----- where the stated intent fails -----

  /** Every requested name is the name of a completed task. */
  ghost predicate AllNamesCompleted(names: Names, tasks: Tasks, deps: set<string>) {
    forall n :: n in deps ==> n in names && names[n].Defined? && names[n].taskId in tasks && tasks[names[n].taskId].state == Completed
  }

  ghost predicate RecordedCompleted(names: Names, tasks: Tasks, deps: set<string>) {
    && RecordedUndefined(names, deps) == {}
    && forall d :: d in RecordedIds(names, deps) ==> d in tasks && tasks[d].state == Completed
  }

  /** Setting dependencies releases the task exactly when all recorded ones are completed. */
  lemma ReleasedIffRecordedCompleted(names: Names, a: Tasks, id: TaskID, deps: set<string>, c: Tasks, runs: TaskID -> bool, silent: set<TaskID>)
    requires Mid(a) && NameEdges(names, a) && id in a && (a[id].state == DepsUnknown || a[id].state == WaitingForDeps)
    requires SetDependenciesTo(names, a, id, deps, c, runs, silent)
    ensures Released(c[id].state) <==> RecordedCompleted(names, a, deps)
  {
    var ids, undefined := RecordedIds(names, deps), RecordedUndefined(names, deps);
    var b := RewiredTasks(a, id, ids, undefined);
    RecordedIdsExist(names, a, deps);
    assert b[id] == RewiredTask(a, id, ids, undefined, id);
    forall d | d in a ensures d in b && (b[d].state == Completed <==> a[d].state == Completed) {
      assert b[d] == RewiredTask(a, id, ids, undefined, d);
    }
    assert AllDone(b, id) <==> RecordedCompleted(names, a, deps);
  }

  /** A task is released although one of the names it asked for is not completed exactly when
      some name was never seen before and everything else it asked for is completed. */
  lemma ReleasedTooEarlyIff(names: Names, a: Tasks, id: TaskID, deps: set<string>, c: Tasks, runs: TaskID -> bool, silent: set<TaskID>)
    requires Mid(a) && NameEdges(names, a) && id in a && (a[id].state == DepsUnknown || a[id].state == WaitingForDeps)
    requires SetDependenciesTo(names, a, id, deps, c, runs, silent)
    ensures Released(c[id].state) && !AllNamesCompleted(names, a, deps)
            <==> Dropped(names, deps) != {} && RecordedCompleted(names, a, deps)
  {
    ReleasedIffRecordedCompleted(names, a, id, deps, c, runs, silent);
    NothingDroppedIff(names, deps);
    if RecordedCompleted(names, a, deps) {
      forall n | n in deps && n in names
        ensures names[n].Defined? && names[n].taskId in a && a[names[n].taskId].state == Completed
      {
        assert n !in RecordedUndefined(names, deps);
        assert names[n].taskId in RecordedIds(names, deps);
      }
    }
  }

  /** Failing a task that waits only for a running one, and then completing that one, brings
      the failed task back: Failed is not absorbing without the discipline. */
  lemma FailedEarlyIsRevived(a: Tasks, x: TaskID, d: TaskID, b: Tasks, silent: set<TaskID>)
    requires Mid(a) && x in a && a[x].state == Running
    requires d in a && a[d].state == WaitingForDeps && a[d].dependsOn == {x} && a[d].dependsOnUndefined == {}
    requires FailsTo(a, d, b, silent)
    ensures x in b && b[x].state == Running && Revived(b, x, d)
  {
    var a1 := a[d := a[d].(state := Failed)];
    FailsToShape(a, d, b, silent);
    assert SameTask(a[d], b[d]) && SameTask(a[x], b[x]);
    assert b[x].state == a1[x].state;
  }
}
