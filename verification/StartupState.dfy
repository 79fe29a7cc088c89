/** Holder/StartupTaskManager: the data of the startup executor, the relations it keeps
    between tasks and names, and what a failure does to them. */
module StartupState {
  import opened Collections
  import opened Graphs

  type TaskID = Vertex

  datatype TaskState = DepsUnknown | WaitingForDeps | Ready | Running | Completed | Failed

  datatype TaskDesc = TaskDesc(
    name: string,
    state: TaskState,
    dependsOnUndefined: set<string>,
    dependsOn: set<TaskID>,
    dependedOnBy: set<TaskID>,
    failuresReported: set<TaskID>)

  /** A known name: asked for but not defined yet, or the name of a task. */
  datatype NameDesc = Pending(dependedOnBy: set<TaskID>) | Defined(taskId: TaskID)

  type Tasks = map<TaskID, TaskDesc>
  type Names = map<string, NameDesc>

  predicate Terminal(s: TaskState) { s == Completed || s == Failed }

  predicate Released(s: TaskState) { s == Ready || s == Running || s == Completed }

  ghost function NonTerminal(tasks: Tasks): set<TaskID> {
    set t | t in tasks && !Terminal(tasks[t].state)
  }

  ghost function InState(tasks: Tasks, s: TaskState): set<TaskID> {
    set t | t in tasks && tasks[t].state == s
  }

  ghost function DependencyGraph(tasks: Tasks): Graph {
    map t | t in tasks :: tasks[t].dependsOn
  }

  // ----- dependsOn and dependedOnBy are inverse -----

  ghost predicate Edges(tasks: Tasks) {
    && (forall t, d {:trigger d in tasks[t].dependsOn} :: t in tasks && d in tasks[t].dependsOn ==> d in tasks && t in tasks[d].dependedOnBy)
    && (forall t, d {:trigger t in tasks[d].dependedOnBy} :: d in tasks && t in tasks[d].dependedOnBy ==> t in tasks && d in tasks[t].dependsOn)
  }

  ghost predicate NameEdges(names: Names, tasks: Tasks) {
    && (forall t, n {:trigger n in tasks[t].dependsOnUndefined} :: t in tasks && n in tasks[t].dependsOnUndefined ==>
          n in names && names[n].Pending? && t in names[n].dependedOnBy)
    && (forall n, t {:trigger t in names[n].dependedOnBy} :: n in names && names[n].Pending? && t in names[n].dependedOnBy ==>
          t in tasks && n in tasks[t].dependsOnUndefined)
    && (forall n {:trigger names[n]} :: n in names && names[n].Defined? ==> names[n].taskId in tasks && tasks[names[n].taskId].name == n)
    && (forall t {:trigger tasks[t].name} :: t in tasks ==> tasks[t].name in names && names[tasks[t].name] == Defined(t))
  }

  // ----- readiness -----

  ghost predicate AllDone(tasks: Tasks, t: TaskID)
    requires t in tasks
  {
    && tasks[t].dependsOnUndefined == {}
    && forall d :: d in tasks[t].dependsOn ==> d in tasks && tasks[d].state == Completed
  }

  ghost predicate HasFailedDep(tasks: Tasks, t: TaskID)
    requires t in tasks
  {
    exists d :: d in tasks[t].dependsOn && d in tasks && tasks[d].state == Failed
  }

  /** What holds of a task at every moment, even in the middle of a cascade. */
  ghost predicate TaskOk(tasks: Tasks, t: TaskID)
    requires t in tasks
  {
    match tasks[t].state
    case DepsUnknown => tasks[t].dependsOn == {} && tasks[t].dependsOnUndefined == {}
    case WaitingForDeps => true
    case Failed => true
    case _ => AllDone(tasks, t)
  }

  ghost predicate Mid(tasks: Tasks) {
    && Edges(tasks)
    && forall t {:trigger TaskOk(tasks, t)} :: t in tasks ==> TaskOk(tasks, t)
  }

  // ----- the listeners' flags -----

  /** Fixed while one action is handled. silent: the listeners whose failed-startup flag was
      set before, so that they do nothing when told of a failure. byRequest: the tasks that
      were failed by a request, not by their listeners. */
  datatype Context = Context(silent: set<TaskID>, byRequest: set<TaskID>)

  /** told: the listeners whose flag is set by now. It was set during the action only by
      listeners that failed their task. */
  ghost predicate FlagOk(task: TaskDesc, t: TaskID, told: set<TaskID>, ctx: Context) {
    match task.state
    case DepsUnknown => t in told <==> t in ctx.silent
    case WaitingForDeps => (t in told <==> t in ctx.silent) && (t in ctx.silent || task.failuresReported == {})
    case Failed => t in told || t in ctx.byRequest
    case _ => true
  }

  ghost predicate FlagsBut(tasks: Tasks, told: set<TaskID>, ctx: Context, x: TaskID) {
    && ctx.silent <= told <= ctx.silent + tasks.Keys
    && forall t {:trigger tasks[t]} :: t in tasks && t != x ==> FlagOk(tasks[t], t, told, ctx)
  }

  ghost predicate Flags(tasks: Tasks, told: set<TaskID>, ctx: Context) {
    && ctx.silent <= told <= ctx.silent + tasks.Keys
    && forall t {:trigger tasks[t]} :: t in tasks ==> FlagOk(tasks[t], t, told, ctx)
  }

  /** Between actions: a waiting task is really waiting, and for a failed task only if its
      listener is silent. */
  ghost predicate WaitOk(tasks: Tasks, t: TaskID, silent: set<TaskID>)
    requires t in tasks
  {
    tasks[t].state == WaitingForDeps ==> !AllDone(tasks, t) && (HasFailedDep(tasks, t) ==> t in silent)
  }

  ghost predicate AtRest(tasks: Tasks, silent: set<TaskID>) {
    forall t {:trigger WaitOk(tasks, t, silent)} :: t in tasks ==> WaitOk(tasks, t, silent)
  }

  /** A failed task failed after all its dependencies completed, or has a failed dependency. */
  ghost predicate FailureOk(tasks: Tasks, t: TaskID)
    requires t in tasks
  {
    tasks[t].state == Failed ==> AllDone(tasks, t) || HasFailedDep(tasks, t)
  }

  ghost predicate FailuresJustified(tasks: Tasks) {
    forall t {:trigger FailureOk(tasks, t)} :: t in tasks ==> FailureOk(tasks, t)
  }

  // ----- the failure cascade -----

  ghost predicate SameTask(a: TaskDesc, b: TaskDesc) {
    && a.name == b.name && a.dependsOnUndefined == b.dependsOnUndefined
    && a.dependsOn == b.dependsOn && a.dependedOnBy == b.dependedOnBy
  }

  ghost predicate SameShape(a: Tasks, b: Tasks) {
    a.Keys == b.Keys && forall t {:trigger b[t]} {:trigger a[t]} :: t in a ==> SameTask(a[t], b[t])
  }

  ghost predicate NewlyFailed(a: Tasks, b: Tasks, t: TaskID) {
    t in a && t in b && a[t].state != Failed && b[t].state == Failed
  }

  /** Waiting tasks, none with a silent listener, that each depend on the next. */
  ghost predicate WaitChain(tasks: Tasks, p: seq<TaskID>, silent: set<TaskID>) {
    && |p| > 0
    && (forall i :: 0 <= i < |p| ==> p[i] in tasks && tasks[p[i]].state == WaitingForDeps && p[i] !in silent)
    && forall i, j :: 0 <= i < j < |p| && j == i + 1 ==> p[j] in tasks[p[i]].dependsOn
  }

  /** Both wait, and t depends on x, perhaps through other waiting tasks; or is x. */
  ghost predicate WaitsFor(tasks: Tasks, t: TaskID, x: TaskID, silent: set<TaskID>) {
    exists p :: WaitChain(tasks, p, silent) && p[0] == t && p[|p| - 1] == x
  }

  ghost predicate CausedBy(a: Tasks, b: Tasks, roots: set<TaskID>, t: TaskID, silent: set<TaskID>)
    requires t in b
  {
    && a.Keys == b.Keys && a[t].state == WaitingForDeps && t !in silent
    && HasFailedDep(b, t)
    && exists r :: r in roots && WaitsFor(a, t, r, silent)
  }

  ghost predicate DependentsSettled(b: Tasks, f: TaskID, silent: set<TaskID>)
    requires f in b
  {
    forall d {:trigger d in b[f].dependedOnBy} :: d in b[f].dependedOnBy && d in b ==> b[d].state != WaitingForDeps || d in silent
  }

  /** From a to b some waiting tasks failed, each because it waits for one of the roots, and
      no task that depends on one of them is left waiting, unless its listener is silent. */
  ghost predicate Cascade(a: Tasks, b: Tasks, roots: set<TaskID>, silent: set<TaskID>) {
    && SameShape(a, b)
    && (forall t {:trigger b[t].state} :: t in a ==> b[t].state == a[t].state || (a[t].state == WaitingForDeps && b[t].state == Failed))
    && (forall t {:trigger NewlyFailed(a, b, t)} :: NewlyFailed(a, b, t) ==> CausedBy(a, b, roots, t, silent) && DependentsSettled(b, t, silent))
  }

  lemma CascadeNothing(a: Tasks, b: Tasks, roots: set<TaskID>, silent: set<TaskID>)
    requires SameShape(a, b) && forall t :: t in a ==> b[t].state == a[t].state
    ensures Cascade(a, b, roots, silent)
  {
  }

  lemma FailedDepStays(b: Tasks, c: Tasks, roots: set<TaskID>, t: TaskID, silent: set<TaskID>)
    requires Cascade(b, c, roots, silent) && t in b && HasFailedDep(b, t)
    ensures HasFailedDep(c, t)
  {
    var d :| d in b[t].dependsOn && d in b && b[d].state == Failed;
    assert c[d].state == Failed && SameTask(b[t], c[t]);
  }

  lemma EarlierChain(a: Tasks, b: Tasks, roots: set<TaskID>, t: TaskID, x: TaskID, silent: set<TaskID>)
    requires Cascade(a, b, roots, silent) && WaitsFor(b, t, x, silent)
    ensures WaitsFor(a, t, x, silent)
  {
    var p :| WaitChain(b, p, silent) && p[0] == t && p[|p| - 1] == x;
    forall i | 0 <= i < |p| ensures p[i] in a && a[p[i]].state == WaitingForDeps && a[p[i]].dependsOn == b[p[i]].dependsOn {
      assert SameTask(a[p[i]], b[p[i]]);
      assert b[p[i]].state == WaitingForDeps;
    }
    assert WaitChain(a, p, silent);
  }

  /** One cascade after another. */
  lemma CascadeTrans(a: Tasks, b: Tasks, c: Tasks, r: set<TaskID>, r': set<TaskID>, silent: set<TaskID>)
    requires Cascade(a, b, r, silent) && Cascade(b, c, r', silent)
    ensures Cascade(a, c, r + r', silent)
  {
    forall t | t in a ensures SameTask(a[t], c[t]) {
      assert SameTask(a[t], b[t]) && SameTask(b[t], c[t]);
    }
    forall t | t in a ensures c[t].state == a[t].state || NewlyFailed(a, c, t) {
      assert b[t].state == a[t].state || NewlyFailed(a, b, t);
      assert c[t].state == b[t].state || NewlyFailed(b, c, t);
    }
    forall t | NewlyFailed(a, c, t) ensures CausedBy(a, c, r + r', t, silent) && DependentsSettled(c, t, silent) {
      NewlyFailedEither(a, b, c, r, r', t, silent);
    }
  }

  lemma NewlyFailedEither(a: Tasks, b: Tasks, c: Tasks, r: set<TaskID>, r': set<TaskID>, t: TaskID, silent: set<TaskID>)
    requires Cascade(a, b, r, silent) && Cascade(b, c, r', silent) && NewlyFailed(a, c, t)
    ensures CausedBy(a, c, r + r', t, silent) && DependentsSettled(c, t, silent)
  {
    assert b[t].state == a[t].state || NewlyFailed(a, b, t);
    if NewlyFailed(a, b, t) {
      FailedDepStays(b, c, r', t, silent);
      var x :| x in r && WaitsFor(a, t, x, silent);
      assert x in r + r';
      assert SameTask(b[t], c[t]);
      forall d | d in c[t].dependedOnBy && d in c ensures c[d].state != WaitingForDeps || d in silent {
        assert d in b[t].dependedOnBy;
        assert c[d].state == b[d].state || NewlyFailed(b, c, d);
      }
    } else {
      assert NewlyFailed(b, c, t);
      var x :| x in r' && WaitsFor(b, t, x, silent);
      EarlierChain(a, b, r, t, x, silent);
      assert x in r + r';
    }
  }

  /** Task d, waiting with a failed dependency, fails; then its dependents are settled. */
  ghost predicate EntersWith(a: Tasks, d: TaskID, a1: Tasks, b: Tasks, silent: set<TaskID>) {
    && Edges(a) && d in a && a[d].state == WaitingForDeps && d !in silent && HasFailedDep(a, d)
    && a1 == a[d := a[d].(state := Failed)]
    && Cascade(a1, b, a[d].dependedOnBy, silent) && DependentsSettled(b, d, silent)
  }

  lemma EnterSelf(a: Tasks, d: TaskID, a1: Tasks, b: Tasks, silent: set<TaskID>)
    requires d in b && EntersWith(a, d, a1, b, silent)
    ensures NewlyFailed(a, b, d) && CausedBy(a, b, {d}, d, silent)
  {
    var x :| x in a[d].dependsOn && x in a && a[x].state == Failed;
    assert b[x].state == a1[x].state || NewlyFailed(a1, b, x);
    assert b[d].state == a1[d].state || NewlyFailed(a1, b, d);
    assert SameTask(a1[d], b[d]);
    assert WaitChain(a, [d], silent) && [d][0] == d;
    assert d in {d} && WaitsFor(a, d, d, silent);
  }

  lemma EnterOther(a: Tasks, d: TaskID, a1: Tasks, b: Tasks, t: TaskID, silent: set<TaskID>)
    requires Edges(a) && d in a && a[d].state == WaitingForDeps && d !in silent && a1 == a[d := a[d].(state := Failed)]
    requires t in b && CausedBy(a1, b, a[d].dependedOnBy, t, silent)
    ensures CausedBy(a, b, {d}, t, silent)
  {
    var r :| r in a[d].dependedOnBy && WaitsFor(a1, t, r, silent);
    ChainThrough(a, d, a1, t, r, silent);
    var roots := {d};
    assert d in roots && WaitsFor(a, t, d, silent);
  }

  lemma CascadeEnter(a: Tasks, d: TaskID, a1: Tasks, b: Tasks, silent: set<TaskID>)
    requires d in b && EntersWith(a, d, a1, b, silent)
    ensures Cascade(a, b, {d}, silent) && b[d].state == Failed
  {
    EnterSelf(a, d, a1, b, silent);
    forall t | t in a ensures SameTask(a[t], b[t]) && (b[t].state == a[t].state || NewlyFailed(a, b, t)) {
      assert SameTask(a1[t], b[t]);
      assert b[t].state == a1[t].state || NewlyFailed(a1, b, t);
    }
    forall t | NewlyFailed(a, b, t) ensures CausedBy(a, b, {d}, t, silent) && DependentsSettled(b, t, silent) {
      if t != d {
        assert NewlyFailed(a1, b, t);
        EnterOther(a, d, a1, b, t, silent);
      }
    }
  }

  lemma ChainThrough(a: Tasks, d: TaskID, a1: Tasks, t: TaskID, r: TaskID, silent: set<TaskID>)
    requires Edges(a) && d in a && a1 == a[d := a[d].(state := Failed)]
    requires r in a[d].dependedOnBy && WaitsFor(a1, t, r, silent)
    requires a[d].state == WaitingForDeps && d !in silent
    ensures WaitsFor(a, t, d, silent)
  {
    var p :| WaitChain(a1, p, silent) && p[0] == t && p[|p| - 1] == r;
    var q := p + [d];
    forall i | 0 <= i < |p| ensures p[i] in a && a[p[i]] == a1[p[i]] {
      assert a1[p[i]].state == WaitingForDeps;
    }
    assert r in a && d in a[r].dependsOn;
    assert WaitChain(a, q, silent);
    assert q[0] == t && q[|q| - 1] == d;
  }

  // ----- single state changes -----

  lemma EdgesSameShape(a: Tasks, b: Tasks)
    requires Edges(a) && SameShape(a, b)
    ensures Edges(b)
  {
    forall t, d | t in b && d in b[t].dependsOn ensures d in b && t in b[d].dependedOnBy {
      assert SameTask(a[t], b[t]);
      assert d in a[t].dependsOn;
      assert SameTask(a[d], b[d]);
    }
    forall t, d | d in b && t in b[d].dependedOnBy ensures t in b && d in b[t].dependsOn {
      assert SameTask(a[d], b[d]);
      assert t in a[d].dependedOnBy;
      assert SameTask(a[t], b[t]);
    }
  }

  /** Changing the state of one task that is not Completed leaves finished dependency sets finished. */
  lemma AllDoneStays(a: Tasks, b: Tasks, t: TaskID)
    requires SameShape(a, b) && t in a && AllDone(a, t)
    requires forall d :: d in a[t].dependsOn && d in a && a[d].state == Completed ==> b[d].state == Completed
    ensures AllDone(b, t)
  {
    assert SameTask(a[t], b[t]);
  }

  lemma MidAfterChange(a: Tasks, x: TaskID, desc: TaskDesc)
    requires x in a && Mid(a) && SameTask(a[x], desc)
    requires a[x].state == Completed ==> desc.state == Completed
    requires TaskOk(a[x := desc], x)
    ensures Mid(a[x := desc])
  {
    var b := a[x := desc];
    EdgesSameShape(a, b);
    forall t | t in b ensures TaskOk(b, t) {
      if t != x {
        assert TaskOk(a, t);
        if Released(a[t].state) {
          AllDoneStays(a, b, t);
        }
      }
    }
  }

  lemma TaskOkOf(tasks: Tasks, t: TaskID)
    requires Mid(tasks) && t in tasks
    ensures TaskOk(tasks, t)
  {
  }

  /** Who depends on an uncompleted task is waiting or has failed. */
  lemma DependentOfUnfinished(tasks: Tasks, x: TaskID, d: TaskID)
    requires Mid(tasks) && x in tasks && d in tasks[x].dependedOnBy && tasks[x].state != Completed
    ensures d in tasks && x in tasks[d].dependsOn
    ensures tasks[d].state == WaitingForDeps || tasks[d].state == Failed
  {
    TaskOkOf(tasks, d);
  }

  lemma NonTerminalAfter(a: Tasks, x: TaskID, desc: TaskDesc)
    requires x in a && !Terminal(a[x].state)
    ensures |NonTerminal(a[x := desc])| == |NonTerminal(a)| - (if Terminal(desc.state) then 1 else 0)
    ensures NonTerminal(a[x := desc]) <= NonTerminal(a)
  {
    if Terminal(desc.state) {
      assert NonTerminal(a) == NonTerminal(a[x := desc]) + {x};
    } else {
      assert NonTerminal(a) == NonTerminal(a[x := desc]);
    }
  }

  lemma NonTerminalShrinks(a: Tasks, b: Tasks, roots: set<TaskID>, silent: set<TaskID>)
    requires Cascade(a, b, roots, silent)
    ensures NonTerminal(b) <= NonTerminal(a) && |NonTerminal(b)| <= |NonTerminal(a)|
  {
    forall t | t in NonTerminal(b) ensures t in NonTerminal(a) {
      assert b[t].state == a[t].state || NewlyFailed(a, b, t);
    }
    SubsetSize(NonTerminal(b), NonTerminal(a));
  }

  // ----- back at rest -----

  lemma CompletedSame(a: Tasks, b: Tasks, roots: set<TaskID>, t: TaskID, silent: set<TaskID>)
    requires Cascade(a, b, roots, silent) && t in a
    ensures b[t].state == Completed <==> a[t].state == Completed
    ensures a[t].state == Failed ==> b[t].state == Failed
    ensures b[t].state == WaitingForDeps ==> a[t].state == WaitingForDeps
  {
    assert b[t].state == a[t].state || NewlyFailed(a, b, t);
    if NewlyFailed(a, b, t) { assert CausedBy(a, b, roots, t, silent); }
  }

  lemma SettledAtRest(a: Tasks, b: Tasks, roots: set<TaskID>, silent: set<TaskID>)
    requires Edges(a) && Cascade(a, b, roots, silent)
    requires forall t {:trigger WaitOk(a, t, silent)} :: t in a && b[t].state == WaitingForDeps ==> WaitOk(a, t, silent)
    ensures AtRest(b, silent)
  {
    EdgesSameShape(a, b);
    forall t | t in b ensures WaitOk(b, t, silent) {
      if b[t].state == WaitingForDeps {
        assert WaitOk(a, t, silent) && SameTask(a[t], b[t]);
        CompletedSame(a, b, roots, t, silent);
        forall d | d in a[t].dependsOn && d in a
          ensures (b[d].state == Completed <==> a[d].state == Completed) && (b[d].state != Failed || t in silent)
        {
          CompletedSame(a, b, roots, d, silent);
          assert SameTask(a[d], b[d]) && t in b[d].dependedOnBy;
          assert NewlyFailed(a, b, d) ==> DependentsSettled(b, d, silent);
        }
      }
    }
  }

  lemma JustifiedAfterCascade(a: Tasks, b: Tasks, roots: set<TaskID>, t: TaskID, silent: set<TaskID>)
    requires Cascade(a, b, roots, silent) && t in a && FailureOk(a, t)
    ensures FailureOk(b, t)
  {
    if b[t].state == Failed && a[t].state != Failed {
      assert NewlyFailed(a, b, t);
    } else if b[t].state == Failed {
      if HasFailedDep(a, t) {
        FailedDepStays(a, b, roots, t, silent);
      } else {
        forall d | d in a[t].dependsOn && d in a ensures a[d].state == Completed ==> b[d].state == Completed {
          CompletedSame(a, b, roots, d, silent);
        }
        AllDoneStays(a, b, t);
      }
    }
  }

  // ----- the exact effect of a failure -----

  /** t waits, directly or through other waiting tasks, for x. */
  ghost predicate Doomed(tasks: Tasks, t: TaskID, x: TaskID, silent: set<TaskID>)
    requires x in tasks
  {
    exists r :: r in tasks[x].dependedOnBy && WaitsFor(tasks, t, r, silent)
  }

  ghost function DoomedBy(tasks: Tasks, x: TaskID, silent: set<TaskID>): set<TaskID>
    requires x in tasks
  {
    set t | t in tasks && Doomed(tasks, t, x, silent)
  }

  /** The failure of x in a, with the cascade it caused, gives b. */
  ghost predicate FailsTo(a: Tasks, x: TaskID, b: Tasks, silent: set<TaskID>) {
    && x in a && x in b
    && Cascade(a[x := a[x].(state := Failed)], b, a[x].dependedOnBy, silent)
    && DependentsSettled(b, x, silent) && b[x].state == Failed
  }

  lemma {:induction false} ChainFails(a: Tasks, x: TaskID, b: Tasks, p: seq<TaskID>, i: nat, silent: set<TaskID>)
    requires Edges(a) && FailsTo(a, x, b, silent)
    requires WaitChain(a, p, silent - {x}) && p[|p| - 1] in a[x].dependedOnBy && i < |p|
    ensures b[p[i]].state == Failed
    decreases |p| - i
  {
    var a1 := a[x := a[x].(state := Failed)];
    var t := p[i];
    if t != x {
      CompletedSame(a1, b, a[x].dependedOnBy, t, silent);
      assert SameTask(a1[x], b[x]);
      if i == |p| - 1 {
        assert b[t].state != WaitingForDeps;
      } else {
        ChainFails(a, x, b, p, i + 1, silent);
        var u := p[i + 1];
        assert u in a[t].dependsOn && t in a[u].dependedOnBy;
        assert SameTask(a1[u], b[u]);
        if u != x {
          assert NewlyFailed(a1, b, u);
          assert DependentsSettled(b, u, silent);
        }
        assert b[t].state != WaitingForDeps;
      }
      assert b[t].state == a1[t].state || NewlyFailed(a1, b, t);
    }
  }

  lemma DoomedFails(a: Tasks, x: TaskID, b: Tasks, t: TaskID, silent: set<TaskID>)
    requires Edges(a) && FailsTo(a, x, b, silent) && t in a && Doomed(a, t, x, silent)
    ensures b[t].state == Failed
  {
    var r :| r in a[x].dependedOnBy && WaitsFor(a, t, r, silent);
    var p :| WaitChain(a, p, silent) && p[0] == t && p[|p| - 1] == r;
    assert WaitChain(a, p, silent - {x});
    ChainFails(a, x, b, p, 0, silent);
  }

  lemma FailedIsDoomed(a: Tasks, x: TaskID, b: Tasks, t: TaskID, silent: set<TaskID>)
    requires FailsTo(a, x, b, silent) && t in a && t != x && a[t].state != Failed && b[t].state == Failed
    ensures Doomed(a, t, x, silent)
  {
    var a1 := a[x := a[x].(state := Failed)];
    assert NewlyFailed(a1, b, t);
    assert CausedBy(a1, b, a[x].dependedOnBy, t, silent);
    var r :| r in a[x].dependedOnBy && WaitsFor(a1, t, r, silent);
    WaitsForBefore(a, x, t, r, silent);
  }

  lemma FailedStaysFailed(a: Tasks, x: TaskID, b: Tasks, t: TaskID, silent: set<TaskID>)
    requires FailsTo(a, x, b, silent) && t in a && (a[t].state == Failed || t == x)
    ensures b[t].state == Failed
  {
    CompletedSame(a[x := a[x].(state := Failed)], b, a[x].dependedOnBy, t, silent);
  }

  /** The tasks that fail are x, those failed before, and exactly the tasks waiting for x. */
  lemma FailureIsExact(a: Tasks, x: TaskID, b: Tasks, silent: set<TaskID>)
    requires Edges(a) && FailsTo(a, x, b, silent)
    ensures InState(b, Failed) == InState(a, Failed) + {x} + DoomedBy(a, x, silent)
  {
    assert a.Keys == b.Keys;
    forall t | t in a ensures b[t].state == Failed <==> a[t].state == Failed || t == x || Doomed(a, t, x, silent) {
      if a[t].state == Failed || t == x {
        FailedStaysFailed(a, x, b, t, silent);
      } else if Doomed(a, t, x, silent) {
        DoomedFails(a, x, b, t, silent);
      } else if b[t].state == Failed {
        FailedIsDoomed(a, x, b, t, silent);
      }
    }
  }

  lemma WaitsForBefore(a: Tasks, x: TaskID, t: TaskID, r: TaskID, silent: set<TaskID>)
    requires x in a && WaitsFor(a[x := a[x].(state := Failed)], t, r, silent)
    ensures WaitsFor(a, t, r, silent)
  {
    var a1 := a[x := a[x].(state := Failed)];
    var p :| WaitChain(a1, p, silent) && p[0] == t && p[|p| - 1] == r;
    forall i | 0 <= i < |p| ensures p[i] in a && a[p[i]] == a1[p[i]] {
      assert a1[p[i]].state == WaitingForDeps;
    }
    assert WaitChain(a, p, silent);
  }

  lemma FailureKeepsWaitOk(a: Tasks, x: TaskID, b: Tasks, t: TaskID, silent: set<TaskID>)
    requires Edges(a) && FailsTo(a, x, b, silent) && a[x].state != Completed
    requires t in a && b[t].state == WaitingForDeps && WaitOk(a, t, silent)
    ensures WaitOk(a[x := a[x].(state := Failed)], t, silent)
  {
    var a1 := a[x := a[x].(state := Failed)];
    CompletedSame(a1, b, a[x].dependedOnBy, t, silent);
    assert SameTask(a1[x], b[x]);
    if t !in silent {
      assert t !in b[x].dependedOnBy;
      assert x !in a[t].dependsOn;
    }
  }

  /** After a failure no waiting task has a failed dependency, unless its listener is silent. */
  lemma FailureLeavesRest(a: Tasks, x: TaskID, b: Tasks, silent: set<TaskID>)
    requires Edges(a) && AtRest(a, silent) && FailsTo(a, x, b, silent) && a[x].state != Completed
    ensures AtRest(b, silent)
  {
    var a1 := a[x := a[x].(state := Failed)];
    EdgesSameShape(a, a1);
    forall t | t in a1 && b[t].state == WaitingForDeps ensures WaitOk(a1, t, silent) {
      assert WaitOk(a, t, silent);
      FailureKeepsWaitOk(a, x, b, t, silent);
    }
    SettledAtRest(a1, b, a[x].dependedOnBy, silent);
  }

  /** Exactly the waiting tasks with a silent listener that depend on a failed task are left
      waiting with a failed dependency. */
  lemma LeftWaitingIff(a: Tasks, x: TaskID, b: Tasks, t: TaskID, silent: set<TaskID>)
    requires Edges(a) && AtRest(a, silent) && FailsTo(a, x, b, silent) && a[x].state != Completed
    requires t in a && t != x && a[t].state == WaitingForDeps
    ensures b[t].state == WaitingForDeps && HasFailedDep(b, t)
            <==> t in silent && exists d :: d in a[t].dependsOn && (d == x || (d in a && a[d].state == Failed) || Doomed(a, d, x, silent))
  {
    var a1 := a[x := a[x].(state := Failed)];
    FailureIsExact(a, x, b, silent);
    FailureLeavesRest(a, x, b, silent);
    assert WaitOk(b, t, silent) && SameTask(a1[t], b[t]);
    forall d | d in a[t].dependsOn
      ensures d in a && (b[d].state == Failed <==> d == x || a[d].state == Failed || Doomed(a, d, x, silent))
    {
      assert d in InState(b, Failed) <==> d in InState(a, Failed) + {x} + DoomedBy(a, x, silent);
    }
    if t in silent {
      assert b[t].state == a1[t].state || NewlyFailed(a1, b, t);
    }
  }

  /** t waits for itself through other waiting tasks. */
  lemma OwnCycleFails(a: Tasks, x: TaskID, b: Tasks, silent: set<TaskID>)
    requires Edges(a) && FailsTo(a, x, b, silent) && a[x].state == WaitingForDeps
    requires Doomed(a, x, x, silent - {x})
    ensures HasFailedDep(b, x)
  {
    var a1 := a[x := a[x].(state := Failed)];
    var r :| r in a[x].dependedOnBy && WaitsFor(a, x, r, silent - {x});
    var p :| WaitChain(a, p, silent - {x}) && p[0] == x && p[|p| - 1] == r;
    assert SameTask(a1[x], b[x]);
    if |p| == 1 {
      assert x in b[x].dependsOn;
    } else {
      ChainFails(a, x, b, p, 1, silent);
      assert p[1] in b[x].dependsOn;
    }
  }

  lemma WaitsForPrepend(a: Tasks, x: TaskID, y: TaskID, r: TaskID, silent: set<TaskID>)
    requires x in a && a[x].state == WaitingForDeps && x !in silent && y in a[x].dependsOn && WaitsFor(a, y, r, silent)
    ensures WaitsFor(a, x, r, silent)
  {
    var p :| WaitChain(a, p, silent) && p[0] == y && p[|p| - 1] == r;
    var q := [x] + p;
    assert WaitChain(a, q, silent) && q[0] == x && q[|q| - 1] == r;
  }

  lemma WaitsForSelf(a: Tasks, x: TaskID, silent: set<TaskID>)
    requires x in a && a[x].state == WaitingForDeps && x !in silent
    ensures WaitsFor(a, x, x, silent)
  {
    assert WaitChain(a, [x], silent) && [x][0] == x;
  }

  lemma NewFailedDep(a: Tasks, x: TaskID, b: Tasks, silent: set<TaskID>) returns (y: TaskID)
    requires Edges(a) && FailsTo(a, x, b, silent) && a[x].state == WaitingForDeps && !HasFailedDep(a, x)
    requires HasFailedDep(b, x)
    ensures y in a && y in a[x].dependsOn && a[y].state != Failed && b[y].state == Failed
  {
    assert SameTask(a[x := a[x].(state := Failed)][x], b[x]);
    y :| y in b[x].dependsOn && y in b && b[y].state == Failed;
  }

  lemma FailedDepIsOnCycle(a: Tasks, x: TaskID, b: Tasks, silent: set<TaskID>)
    requires Edges(a) && FailsTo(a, x, b, silent) && a[x].state == WaitingForDeps && !HasFailedDep(a, x)
    requires HasFailedDep(b, x)
    ensures Doomed(a, x, x, silent - {x})
  {
    var y := NewFailedDep(a, x, b, silent);
    if y == x {
      WaitsForSelf(a, x, silent - {x});
    } else {
      FailedIsDoomed(a, x, b, y, silent);
      var r :| r in a[x].dependedOnBy && WaitsFor(a, y, r, silent);
      var p :| WaitChain(a, p, silent) && p[0] == y && p[|p| - 1] == r;
      assert WaitChain(a, p, silent - {x});
      WaitsForPrepend(a, x, y, r, silent - {x});
    }
  }

  lemma FailedDepOfFailing(a: Tasks, x: TaskID, b: Tasks, silent: set<TaskID>)
    requires FailsTo(a, x, b, silent) && HasFailedDep(a, x)
    ensures HasFailedDep(b, x)
  {
    var a1 := a[x := a[x].(state := Failed)];
    var d :| d in a[x].dependsOn && d in a && a[d].state == Failed;
    assert SameTask(a1[x], b[x]);
    CompletedSame(a1, b, a[x].dependedOnBy, d, silent);
  }

  lemma OthersStayJustified(a: Tasks, x: TaskID, b: Tasks, silent: set<TaskID>)
    requires Mid(a) && FailuresJustified(a) && FailsTo(a, x, b, silent) && !Terminal(a[x].state)
    ensures forall t {:trigger FailureOk(b, t)} :: t in b && t != x ==> FailureOk(b, t)
  {
    var a1 := a[x := a[x].(state := Failed)];
    forall t | t in b && t != x ensures FailureOk(b, t) {
      assert t in a && FailureOk(a, t);
      FailureOkBefore(a, x, t);
      JustifiedAfterCascade(a1, b, a[x].dependedOnBy, t, silent);
    }
  }

  lemma AllDoneUnchanged(a: Tasks, x: TaskID, b: Tasks, silent: set<TaskID>)
    requires FailsTo(a, x, b, silent) && a[x].state != Completed
    ensures AllDone(b, x) <==> AllDone(a, x)
  {
    var a1 := a[x := a[x].(state := Failed)];
    assert SameTask(a1[x], b[x]) && a.Keys == b.Keys;
    forall d | d in a ensures b[d].state == Completed <==> a[d].state == Completed {
      CompletedSame(a1, b, a[x].dependedOnBy, d, silent);
    }
  }

  /** x may fail without leaving a failure unexplained: it is past waiting, or a dependency
      failed that its silent listener ignored, or x waits for itself. */
  ghost predicate MayFail(a: Tasks, x: TaskID, silent: set<TaskID>)
    requires x in a
  {
    a[x].state != WaitingForDeps || HasFailedDep(a, x) || Doomed(a, x, x, silent - {x})
  }

  lemma FailureJustifiedIff(a: Tasks, x: TaskID, b: Tasks, silent: set<TaskID>)
    requires Mid(a) && AtRest(a, silent) && FailuresJustified(a) && FailsTo(a, x, b, silent)
    requires !Terminal(a[x].state)
    ensures FailuresJustified(b) <==> MayFail(a, x, silent)
  {
    OthersStayJustified(a, x, b, silent);
    AllDoneUnchanged(a, x, b, silent);
    TaskOkOf(a, x);
    assert WaitOk(a, x, silent);
    if a[x].state == WaitingForDeps {
      if HasFailedDep(a, x) {
        FailedDepOfFailing(a, x, b, silent);
      } else if Doomed(a, x, x, silent - {x}) {
        OwnCycleFails(a, x, b, silent);
      } else if HasFailedDep(b, x) {
        FailedDepIsOnCycle(a, x, b, silent);
      }
    }
    assert FailureOk(b, x) <==> AllDone(b, x) || HasFailedDep(b, x);
  }

  lemma FailureOkBefore(a: Tasks, x: TaskID, t: TaskID)
    requires Mid(a) && x in a && t in a && t != x && !Terminal(a[x].state) && FailureOk(a, t)
    ensures FailureOk(a[x := a[x].(state := Failed)], t)
  {
  }

  // ----- the exact effect of a completion -----

  function ReadyState(runs: TaskID -> bool, t: TaskID): TaskState {
    if runs(t) then Running else Ready
  }

  /** From a to b exactly the tasks of p that have nothing left to wait for became ready
      (and running, where the listener starts its task at once). */
  ghost predicate Promoted(a: Tasks, b: Tasks, p: set<TaskID>, runs: TaskID -> bool) {
    && SameShape(a, b)
    && forall t {:trigger b[t].state} :: t in a ==>
         b[t].state == if t in p && AllDone(a, t) then ReadyState(runs, t) else a[t].state
  }

  lemma PromotedNone(a: Tasks, runs: TaskID -> bool)
    ensures Promoted(a, a, {}, runs)
  {
  }

  /** Promoting never completes a task, so it does not change what others wait for. */
  lemma PromotedSameDone(a: Tasks, b: Tasks, p: set<TaskID>, runs: TaskID -> bool, t: TaskID)
    requires Promoted(a, b, p, runs) && t in a
    requires forall q :: q in p && q in a ==> a[q].state != Completed
    ensures AllDone(a, t) <==> AllDone(b, t)
    ensures b[t].state == Failed ==> a[t].state == Failed
    ensures b[t].state == Completed <==> a[t].state == Completed
  {
    assert SameTask(a[t], b[t]);
    forall d | d in a ensures b[d].state == Completed <==> a[d].state == Completed {
      assert b[d].state == if d in p && AllDone(a, d) then ReadyState(runs, d) else a[d].state;
    }
  }

  lemma PromoteNext(a: Tasks, b: Tasks, p: set<TaskID>, runs: TaskID -> bool, d: TaskID, c: Tasks)
    requires Promoted(a, b, p, runs) && d in a && d !in p
    requires forall q :: q in p && q in a ==> a[q].state != Completed
    requires SameShape(b, c)
    requires forall t {:trigger c[t].state} :: t in b ==> c[t].state == if t == d && AllDone(b, d) then ReadyState(runs, d) else b[t].state
    ensures Promoted(a, c, p + {d}, runs)
  {
    PromotedSameDone(a, b, p, runs, d);
    forall t | t in a ensures SameTask(a[t], c[t]) {
      assert SameTask(a[t], b[t]) && SameTask(b[t], c[t]);
    }
    forall t | t in a ensures c[t].state == if t in p + {d} && AllDone(a, t) then ReadyState(runs, t) else a[t].state {
      assert b[t].state == if t in p && AllDone(a, t) then ReadyState(runs, t) else a[t].state;
      assert c[t].state == if t == d && AllDone(b, d) then ReadyState(runs, d) else b[t].state;
    }
  }

  /** The successful completion of x in a, with the promotions it allowed, gives b. */
  ghost predicate CompletesTo(a: Tasks, x: TaskID, b: Tasks, runs: TaskID -> bool) {
    && x in a && a[x].state == Running
    && Promoted(a[x := a[x].(state := Completed)], b, a[x].dependedOnBy, runs)
  }

  lemma NotItsOwnDependent(a: Tasks, x: TaskID)
    requires Mid(a) && x in a && a[x].state == Running
    ensures forall q :: q in a[x].dependedOnBy ==> q in a && a[q].state != Completed && q != x
  {
    forall q | q in a[x].dependedOnBy ensures q in a && a[q].state != Completed && q != x {
      DependentOfUnfinished(a, x, q);
    }
  }

  /** A completion leaves no task waiting that could have been released, nor for a failed task. */
  lemma CompletionLeavesRest(a: Tasks, x: TaskID, b: Tasks, runs: TaskID -> bool, silent: set<TaskID>)
    requires Mid(a) && AtRest(a, silent) && CompletesTo(a, x, b, runs)
    ensures AtRest(b, silent)
  {
    var a1 := a[x := a[x].(state := Completed)];
    NotItsOwnDependent(a, x);
    forall t | t in b ensures WaitOk(b, t, silent) {
      if b[t].state == WaitingForDeps {
        CompletionKeepsWaitOk(a, x, b, runs, t, silent);
      }
    }
  }

  lemma CompletionKeepsWaitOk(a: Tasks, x: TaskID, b: Tasks, runs: TaskID -> bool, t: TaskID, silent: set<TaskID>)
    requires Mid(a) && AtRest(a, silent) && CompletesTo(a, x, b, runs)
    requires forall q :: q in a[x].dependedOnBy ==> q in a && a[q].state != Completed && q != x
    requires t in b && b[t].state == WaitingForDeps
    ensures WaitOk(b, t, silent)
  {
    var a1 := a[x := a[x].(state := Completed)];
    assert WaitOk(a, t, silent);
    PromotedSameDone(a1, b, a[x].dependedOnBy, runs, t);
    assert SameTask(a1[t], b[t]) && t != x;
    if AllDone(a1, t) {
      assert t !in a[x].dependedOnBy;
      assert x !in a[t].dependsOn;
      assert AllDone(a, t);
    }
    forall d | d in b[t].dependsOn && d in b ensures b[d].state == Failed ==> a[d].state == Failed {
      PromotedSameDone(a1, b, a[x].dependedOnBy, runs, d);
    }
  }

  /** Which failed tasks a completion brings back to life. */
  ghost predicate Revived(a: Tasks, x: TaskID, t: TaskID)
    requires x in a
  {
    && t in a[x].dependedOnBy && t in a && a[t].state == Failed
    && AllDone(a[x := a[x].(state := Completed)], t)
  }

  /** Failed is left again exactly by the failed dependents whose last uncompleted dependency was x. */
  lemma FailedIsLeftIff(a: Tasks, x: TaskID, b: Tasks, runs: TaskID -> bool, t: TaskID)
    requires Mid(a) && CompletesTo(a, x, b, runs) && t in a && a[t].state == Failed
    ensures b[t].state != Failed <==> Revived(a, x, t)
  {
    var a1 := a[x := a[x].(state := Completed)];
    assert b[t].state == if t in a[x].dependedOnBy && AllDone(a1, t) then ReadyState(runs, t) else a1[t].state;
  }

  lemma JustifiedIsNotRevived(a: Tasks, x: TaskID, t: TaskID)
    requires Edges(a) && x in a && a[x].state == Running && t in a && FailureOk(a, t)
    ensures !Revived(a, x, t)
  {
    if t in a[x].dependedOnBy && a[t].state == Failed {
      assert x in a[t].dependsOn;
      var d :| d in a[t].dependsOn && d in a && a[d].state == Failed;
      assert a[x := a[x].(state := Completed)][d].state == Failed;
    }
  }

  /** With every failure justified a completion revives nothing and keeps it so. */
  lemma CompletionKeepsJustified(a: Tasks, x: TaskID, b: Tasks, runs: TaskID -> bool)
    requires Mid(a) && FailuresJustified(a) && CompletesTo(a, x, b, runs)
    ensures FailuresJustified(b)
    ensures InState(b, Failed) == InState(a, Failed)
  {
    NotItsOwnDependent(a, x);
    forall t | t in a ensures FailureOk(b, t) && (b[t].state == Failed <==> a[t].state == Failed) {
      assert FailureOk(a, t);
      CompletionKeepsFailure(a, x, b, runs, t);
    }
    assert a.Keys == b.Keys;
  }

  lemma CompletionKeepsFailure(a: Tasks, x: TaskID, b: Tasks, runs: TaskID -> bool, t: TaskID)
    requires Mid(a) && FailuresJustified(a) && CompletesTo(a, x, b, runs) && t in a
    requires forall q :: q in a[x].dependedOnBy ==> q in a && a[q].state != Completed && q != x
    ensures FailureOk(b, t) && (b[t].state == Failed <==> a[t].state == Failed)
  {
    var a1 := a[x := a[x].(state := Completed)];
    StaysFailed(a, x, b, runs, t);
    PromotedSameDone(a1, b, a[x].dependedOnBy, runs, t);
    if a[t].state == Failed {
      assert FailureOk(a, t) && SameTask(a1[t], b[t]);
      if HasFailedDep(a, t) {
        var d :| d in a[t].dependsOn && d in a && a[d].state == Failed;
        StaysFailed(a, x, b, runs, d);
      } else {
        assert AllDone(a1, t);
      }
    }
  }

  lemma StaysFailed(a: Tasks, x: TaskID, b: Tasks, runs: TaskID -> bool, t: TaskID)
    requires Mid(a) && FailuresJustified(a) && CompletesTo(a, x, b, runs) && t in a
    requires forall q :: q in a[x].dependedOnBy ==> q in a && a[q].state != Completed && q != x
    ensures b[t].state == Failed <==> a[t].state == Failed
  {
    assert FailureOk(a, t);
    JustifiedIsNotRevived(a, x, t);
    var a1 := a[x := a[x].(state := Completed)];
    PromotedSameDone(a1, b, a[x].dependedOnBy, runs, t);
    if a[t].state == Failed {
      FailedIsLeftIff(a, x, b, runs, t);
    }
  }
}
