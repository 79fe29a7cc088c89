/** Holder/StartupTaskManager: resolving names. What defining a task and (re)setting the
    dependencies of a task do to the two relations, and what becomes of a requested name. */
module StartupNames {
  import opened StartupState

  // ----- setting dependencies -----

  /** The requested names that belong to a task already. */
  function RecordedIds(names: Names, deps: set<string>): set<TaskID> {
    set n | n in deps && n in names && names[n].Defined? :: names[n].taskId
  }

  /** The requested names that are known but not defined yet. A name seen here for the
      first time is not among them: it only enters the name map. */
  function RecordedUndefined(names: Names, deps: set<string>): set<string> {
    set n | n in deps && n in names && names[n].Pending?
  }

  /** The requested names that are neither: the request for them is dropped. */
  function Dropped(names: Names, deps: set<string>): set<string> {
    set n | n in deps && n !in names
  }

  function WithNewNames(names: Names, deps: set<string>): Names {
    names + map n | n in Dropped(names, deps) :: Pending({})
  }

  function Toggled(s: set<TaskID>, id: TaskID, on: bool): set<TaskID> {
    if on then s + {id} else s - {id}
  }

  ghost function RewiredTask(tasks: Tasks, id: TaskID, ids: set<TaskID>, undefined: set<string>, t: TaskID): TaskDesc
    requires t in tasks
  {
    var base := tasks[t].(dependedOnBy := Toggled(tasks[t].dependedOnBy, id, t in ids));
    if t == id then base.(state := WaitingForDeps, dependsOn := ids, dependsOnUndefined := undefined, failuresReported := {})
    else base
  }

  /** The tasks after task id was given the dependencies ids and undefined. */
  ghost function RewiredTasks(tasks: Tasks, id: TaskID, ids: set<TaskID>, undefined: set<string>): Tasks {
    map t | t in tasks :: RewiredTask(tasks, id, ids, undefined, t)
  }

  ghost function RewiredNames(names: Names, id: TaskID, undefined: set<string>): Names {
    map n | n in names :: if names[n].Pending? then Pending(Toggled(names[n].dependedOnBy, id, n in undefined)) else names[n]
  }

  lemma RewiredEdges(tasks: Tasks, id: TaskID, ids: set<TaskID>, undefined: set<string>)
    requires Edges(tasks) && id in tasks && ids <= tasks.Keys
    ensures Edges(RewiredTasks(tasks, id, ids, undefined))
  {
    var b := RewiredTasks(tasks, id, ids, undefined);
    forall t, d | t in b && d in b[t].dependsOn ensures d in b && t in b[d].dependedOnBy {
      assert b[t] == RewiredTask(tasks, id, ids, undefined, t);
      if t != id { assert d in tasks[t].dependsOn; }
      assert b[d] == RewiredTask(tasks, id, ids, undefined, d);
    }
    forall t, d | d in b && t in b[d].dependedOnBy ensures t in b && d in b[t].dependsOn {
      assert b[d] == RewiredTask(tasks, id, ids, undefined, d);
      if t != id { assert t in tasks[d].dependedOnBy; }
      assert b[t] == RewiredTask(tasks, id, ids, undefined, t);
    }
  }

  lemma RewiredNameEdges(names: Names, tasks: Tasks, id: TaskID, ids: set<TaskID>, undefined: set<string>)
    requires NameEdges(names, tasks) && id in tasks
    requires forall n :: n in undefined ==> n in names && names[n].Pending?
    ensures NameEdges(RewiredNames(names, id, undefined), RewiredTasks(tasks, id, ids, undefined))
  {
    var ns, b := RewiredNames(names, id, undefined), RewiredTasks(tasks, id, ids, undefined);
    forall t | t in b ensures b[t].name == tasks[t].name && (t != id ==> b[t].dependsOnUndefined == tasks[t].dependsOnUndefined) {
      assert b[t] == RewiredTask(tasks, id, ids, undefined, t);
    }
    assert b[id].dependsOnUndefined == undefined;
    forall t, n | t in b && n in b[t].dependsOnUndefined ensures n in ns && ns[n].Pending? && t in ns[n].dependedOnBy {
      if t != id { assert n in tasks[t].dependsOnUndefined; }
    }
    forall n, t | n in ns && ns[n].Pending? && t in ns[n].dependedOnBy ensures t in b && n in b[t].dependsOnUndefined {
      if t != id { assert t in names[n].dependedOnBy; }
    }
    forall n | n in ns && ns[n].Defined? ensures ns[n].taskId in b && b[ns[n].taskId].name == n {
      assert names[n] == ns[n];
    }
    forall t | t in b ensures b[t].name in ns && ns[b[t].name] == Defined(t) {
      assert tasks[t].name in names;
    }
  }

  lemma NewNamesNameEdges(names: Names, tasks: Tasks, deps: set<string>)
    requires NameEdges(names, tasks)
    ensures NameEdges(WithNewNames(names, deps), tasks)
  {
    var ns := WithNewNames(names, deps);
    forall n, t | n in ns && ns[n].Pending? && t in ns[n].dependedOnBy ensures t in tasks && n in tasks[t].dependsOnUndefined {
      assert n in names && t in names[n].dependedOnBy;
    }
    forall t, n | t in tasks && n in tasks[t].dependsOnUndefined ensures n in ns && ns[n].Pending? && t in ns[n].dependedOnBy {
      assert n in names;
    }
    forall n | n in ns && ns[n].Defined? ensures ns[n].taskId in tasks && tasks[ns[n].taskId].name == n {
      assert n in names && names[n] == ns[n];
    }
    forall t | t in tasks ensures tasks[t].name in ns && ns[tasks[t].name] == Defined(t) {
      assert tasks[t].name in names;
    }
  }

  lemma RewiredMid(tasks: Tasks, id: TaskID, ids: set<TaskID>, undefined: set<string>)
    requires Mid(tasks) && id in tasks && ids <= tasks.Keys
    requires tasks[id].state == DepsUnknown || tasks[id].state == WaitingForDeps
    ensures Mid(RewiredTasks(tasks, id, ids, undefined))
  {
    var b := RewiredTasks(tasks, id, ids, undefined);
    RewiredEdges(tasks, id, ids, undefined);
    assert b.Keys == tasks.Keys;
    forall t | t in b ensures TaskOk(b, t) {
      assert TaskOk(tasks, t);
      assert b[t] == RewiredTask(tasks, id, ids, undefined, t);
      if t != id && Released(tasks[t].state) {
        assert forall d :: d in tasks[t].dependsOn ==> b[d] == RewiredTask(tasks, id, ids, undefined, d);
      }
    }
  }

  lemma RewiredFlags(tasks: Tasks, told: set<TaskID>, byRequest: set<TaskID>, id: TaskID, ids: set<TaskID>, undefined: set<string>)
    requires Flags(tasks, told, Context(told, byRequest)) && id in tasks
    ensures Flags(RewiredTasks(tasks, id, ids, undefined), told, Context(told, byRequest))
  {
    var b := RewiredTasks(tasks, id, ids, undefined);
    forall t | t in b ensures FlagOk(b[t], t, told, Context(told, byRequest)) {
      assert b[t] == RewiredTask(tasks, id, ids, undefined, t);
      assert FlagOk(tasks[t], t, told, Context(told, byRequest));
    }
  }

  /** Rewiring id changes nobody else's readiness. */
  lemma RewiredOthers(tasks: Tasks, id: TaskID, ids: set<TaskID>, undefined: set<string>, t: TaskID)
    requires Edges(tasks) && id in tasks && t in tasks && t != id
    requires tasks[id].state == DepsUnknown || tasks[id].state == WaitingForDeps
    ensures var b := RewiredTasks(tasks, id, ids, undefined);
            && b[t].state == tasks[t].state
            && (AllDone(b, t) <==> AllDone(tasks, t))
            && (HasFailedDep(b, t) <==> HasFailedDep(tasks, t))
  {
    var b := RewiredTasks(tasks, id, ids, undefined);
    assert b[t] == RewiredTask(tasks, id, ids, undefined, t);
    forall d | d in tasks ensures d in b && (b[d].state == Completed <==> tasks[d].state == Completed) && (b[d].state == Failed <==> tasks[d].state == Failed) {
      assert b[d] == RewiredTask(tasks, id, ids, undefined, d);
    }
  }

  // ----- defining a task -----

  ghost function ResolvedTask(tasks: Tasks, id: TaskID, n: string, waiting: set<TaskID>, t: TaskID): TaskDesc
    requires t in tasks
  {
    if t in waiting then tasks[t].(dependsOnUndefined := tasks[t].dependsOnUndefined - {n}, dependsOn := tasks[t].dependsOn + {id})
    else tasks[t]
  }

  /** The tasks after the name n, on which waiting depend, was given to the new task id. */
  ghost function ResolvedTasks(tasks: Tasks, id: TaskID, n: string, waiting: set<TaskID>): Tasks {
    (map t | t in tasks :: ResolvedTask(tasks, id, n, waiting, t))[id := TaskDesc(n, DepsUnknown, {}, {}, waiting, {})]
  }

  function WaitingOn(names: Names, n: string): set<TaskID> {
    if n in names && names[n].Pending? then names[n].dependedOnBy else {}
  }

  ghost predicate Definable(names: Names, n: string) {
    n in names ==> names[n].Pending?
  }

  lemma WaitingOnHas(names: Names, tasks: Tasks, n: string, t: TaskID)
    requires NameEdges(names, tasks) && t in WaitingOn(names, n)
    ensures t in tasks && n in tasks[t].dependsOnUndefined
  {
  }

  lemma WaitingOnIs(names: Names, tasks: Tasks, n: string)
    requires NameEdges(names, tasks) && Definable(names, n)
    ensures WaitingOn(names, n) == set t | t in tasks && n in tasks[t].dependsOnUndefined
  {
  }

  lemma ResolvedEdges(names: Names, tasks: Tasks, id: TaskID, n: string)
    requires Edges(tasks) && NameEdges(names, tasks) && id !in tasks
    ensures Edges(ResolvedTasks(tasks, id, n, WaitingOn(names, n)))
  {
    var w := WaitingOn(names, n);
    var b := ResolvedTasks(tasks, id, n, w);
    forall t, d | t in b && d in b[t].dependsOn ensures d in b && t in b[d].dependedOnBy {
      assert t != id && b[t] == ResolvedTask(tasks, id, n, w, t);
      if d != id {
        assert d in tasks[t].dependsOn;
        assert b[d] == ResolvedTask(tasks, id, n, w, d);
      } else {
        assert d in tasks[t].dependsOn ==> d in tasks;
      }
    }
    forall t, d | d in b && t in b[d].dependedOnBy ensures t in b && d in b[t].dependsOn {
      if d == id {
        WaitingOnHas(names, tasks, n, t);
      } else {
        assert b[d] == ResolvedTask(tasks, id, n, w, d);
        assert t in tasks[d].dependedOnBy;
      }
      assert b[t] == ResolvedTask(tasks, id, n, w, t);
    }
  }

  lemma ResolvedNameEdges(names: Names, tasks: Tasks, id: TaskID, n: string)
    requires NameEdges(names, tasks) && id !in tasks && Definable(names, n)
    ensures NameEdges(names[n := Defined(id)], ResolvedTasks(tasks, id, n, WaitingOn(names, n)))
  {
    var w := WaitingOn(names, n);
    var ns, b := names[n := Defined(id)], ResolvedTasks(tasks, id, n, w);
    forall t | t in tasks ensures b[t] == ResolvedTask(tasks, id, n, w, t) && tasks[t].name != n {
      assert names[tasks[t].name] == Defined(t);
    }
    forall t, m | t in b && m in b[t].dependsOnUndefined ensures m in ns && ns[m].Pending? && t in ns[m].dependedOnBy {
      assert t != id && m in tasks[t].dependsOnUndefined;
      assert t in names[m].dependedOnBy;
    }
    forall m, t | m in ns && ns[m].Pending? && t in ns[m].dependedOnBy ensures t in b && m in b[t].dependsOnUndefined {
      assert t in names[m].dependedOnBy && m != n;
    }
    forall m | m in ns && ns[m].Defined? ensures ns[m].taskId in b && b[ns[m].taskId].name == m {
      assert m != n ==> names[m] == ns[m];
    }
    forall t | t in b ensures b[t].name in ns && ns[b[t].name] == Defined(t) {
      assert t != id ==> tasks[t].name in names;
    }
  }

  lemma ResolvedOthers(names: Names, tasks: Tasks, id: TaskID, n: string, t: TaskID)
    requires Mid(tasks) && NameEdges(names, tasks) && id !in tasks && t in tasks
    ensures var b := ResolvedTasks(tasks, id, n, WaitingOn(names, n));
            && b[t].state == tasks[t].state && b[t].failuresReported == tasks[t].failuresReported
            && (AllDone(b, t) <==> AllDone(tasks, t))
            && (HasFailedDep(b, t) <==> HasFailedDep(tasks, t))
            && (t in WaitingOn(names, n) ==> tasks[t].state == WaitingForDeps || tasks[t].state == Failed)
  {
    var w := WaitingOn(names, n);
    var b := ResolvedTasks(tasks, id, n, w);
    assert b[t] == ResolvedTask(tasks, id, n, w, t);
    TaskOkOf(tasks, t);
    forall d | d in tasks ensures b[d].state == tasks[d].state {
      assert b[d] == ResolvedTask(tasks, id, n, w, d);
    }
    assert forall d :: d in tasks[t].dependsOn ==> d in tasks;
    if t in w {
      WaitingOnHas(names, tasks, n, t);
      assert id in b[t].dependsOn && b[id].state == DepsUnknown;
    }
  }

  lemma ResolvedMid(names: Names, tasks: Tasks, id: TaskID, n: string)
    requires Mid(tasks) && NameEdges(names, tasks) && id !in tasks
    ensures Mid(ResolvedTasks(tasks, id, n, WaitingOn(names, n)))
  {
    var w := WaitingOn(names, n);
    var b := ResolvedTasks(tasks, id, n, w);
    ResolvedEdges(names, tasks, id, n);
    assert b.Keys == tasks.Keys + {id};
    forall t | t in b ensures TaskOk(b, t) {
      if t != id {
        assert TaskOk(tasks, t);
        ResolvedOthers(names, tasks, id, n, t);
        assert b[t] == ResolvedTask(tasks, id, n, w, t);
      }
    }
  }

  lemma ResolvedFlags(tasks: Tasks, told: set<TaskID>, byRequest: set<TaskID>, id: TaskID, n: string, w: set<TaskID>)
    requires Flags(tasks, told, Context(told, byRequest)) && id !in tasks
    ensures Flags(ResolvedTasks(tasks, id, n, w), told, Context(told, byRequest))
  {
    var b := ResolvedTasks(tasks, id, n, w);
    forall t | t in b ensures FlagOk(b[t], t, told, Context(told, byRequest)) {
      if t != id {
        assert b[t] == ResolvedTask(tasks, id, n, w, t);
        assert FlagOk(tasks[t], t, told, Context(told, byRequest));
      }
    }
  }

  lemma ResolvedRest(names: Names, tasks: Tasks, id: TaskID, n: string, silent: set<TaskID>)
    requires Mid(tasks) && NameEdges(names, tasks) && id !in tasks
    ensures var b := ResolvedTasks(tasks, id, n, WaitingOn(names, n));
            && (AtRest(tasks, silent) ==> AtRest(b, silent))
            && (FailuresJustified(tasks) ==> FailuresJustified(b))
            && NonTerminal(b) == NonTerminal(tasks) + {id}
  {
    var b := ResolvedTasks(tasks, id, n, WaitingOn(names, n));
    forall t | t in b
      ensures AtRest(tasks, silent) ==> WaitOk(b, t, silent)
      ensures FailuresJustified(tasks) ==> FailureOk(b, t)
      ensures t != id ==> b[t].state == tasks[t].state
    {
      if t != id {
        ResolvedOthers(names, tasks, id, n, t);
        assert AtRest(tasks, silent) ==> WaitOk(tasks, t, silent);
        assert FailuresJustified(tasks) ==> FailureOk(tasks, t);
      }
    }
    assert b.Keys == tasks.Keys + {id};
  }

  // ----- what became of each requested name -----

  /** A requested name that was not dropped is still recorded: as undefined, or as the
      dependency on the task that now bears it. */
  ghost predicate NameKept(names: Names, tasks: Tasks, t: TaskID, n: string) {
    && t in tasks && n in names
    && match names[n]
       case Pending(_) => n in tasks[t].dependsOnUndefined
       case Defined(id) => id in tasks[t].dependsOn
  }

  ghost predicate NamesTracked(names: Names, tasks: Tasks, requested: map<TaskID, set<string>>, dropped: map<TaskID, set<string>>) {
    && requested.Keys == dropped.Keys
    && forall t, n {:trigger NameKept(names, tasks, t, n)} :: t in requested && n in requested[t] - dropped[t] ==> NameKept(names, tasks, t, n)
  }

  lemma TrackedAfterRewiring(names: Names, tasks: Tasks, requested: map<TaskID, set<string>>, dropped: map<TaskID, set<string>>,
                             id: TaskID, deps: set<string>)
    requires NamesTracked(names, tasks, requested, dropped) && id in tasks
    ensures NamesTracked(RewiredNames(WithNewNames(names, deps), id, RecordedUndefined(names, deps)),
                         RewiredTasks(tasks, id, RecordedIds(names, deps), RecordedUndefined(names, deps)),
                         requested[id := deps], dropped[id := Dropped(names, deps)])
  {
    var ids, undefined := RecordedIds(names, deps), RecordedUndefined(names, deps);
    var ns, b := RewiredNames(WithNewNames(names, deps), id, undefined), RewiredTasks(tasks, id, ids, undefined);
    var requested', dropped' := requested[id := deps], dropped[id := Dropped(names, deps)];
    forall t, n | t in requested' && n in requested'[t] - dropped'[t] ensures NameKept(ns, b, t, n) {
      if t == id {
        assert n in names && b[id] == RewiredTask(tasks, id, ids, undefined, id);
      } else {
        assert NameKept(names, tasks, t, n);
        assert b[t] == RewiredTask(tasks, id, ids, undefined, t);
      }
    }
  }

  lemma TrackedAfterDefinition(names: Names, tasks: Tasks, requested: map<TaskID, set<string>>, dropped: map<TaskID, set<string>>,
                               id: TaskID, n: string)
    requires NamesTracked(names, tasks, requested, dropped) && NameEdges(names, tasks)
    requires id !in tasks && Definable(names, n)
    ensures NamesTracked(names[n := Defined(id)], ResolvedTasks(tasks, id, n, WaitingOn(names, n)), requested, dropped)
  {
    var w := WaitingOn(names, n);
    var ns, b := names[n := Defined(id)], ResolvedTasks(tasks, id, n, w);
    forall t, m | t in requested && m in requested[t] - dropped[t] ensures NameKept(ns, b, t, m) {
      assert NameKept(names, tasks, t, m);
      assert b[t] == ResolvedTask(tasks, id, n, w, t);
      if m == n {
        assert m in tasks[t].dependsOnUndefined && t in w;
      }
    }
  }

  lemma TrackedSameShape(names: Names, a: Tasks, b: Tasks, requested: map<TaskID, set<string>>, dropped: map<TaskID, set<string>>)
    requires NamesTracked(names, a, requested, dropped) && SameShape(a, b)
    ensures NamesTracked(names, b, requested, dropped)
  {
    forall t, n | t in requested && n in requested[t] - dropped[t] ensures NameKept(names, b, t, n) {
      assert NameKept(names, a, t, n) && SameTask(a[t], b[t]);
    }
  }

  lemma NameEdgesSameShape(names: Names, a: Tasks, b: Tasks)
    requires NameEdges(names, a) && SameShape(a, b)
    ensures NameEdges(names, b)
  {
    forall t | t in b ensures SameTask(a[t], b[t]) { }
    forall t, n | t in b && n in b[t].dependsOnUndefined ensures n in names && names[n].Pending? && t in names[n].dependedOnBy {
      assert n in a[t].dependsOnUndefined;
    }
    forall n, t | n in names && names[n].Pending? && t in names[n].dependedOnBy ensures t in b && n in b[t].dependsOnUndefined {
      assert n in a[t].dependsOnUndefined;
    }
    forall t | t in b ensures b[t].name in names && names[b[t].name] == Defined(t) {
      assert a[t].name in names;
    }
    forall n | n in names && names[n].Defined? ensures names[n].taskId in b && b[names[n].taskId].name == n {
      assert names[n].taskId in a;
    }
  }

  /** The request for every name is recorded exactly when every name was known before. */
  lemma NothingDroppedIff(names: Names, deps: set<string>)
    ensures Dropped(names, deps) == {} <==> forall n :: n in deps ==> n in names
    ensures forall n :: n in deps ==> (n in Dropped(names, deps) <==>
              n !in RecordedUndefined(names, deps) && !(n in names && names[n].Defined? && names[n].taskId in RecordedIds(names, deps)))
  {
    if n :| n in deps && n !in names {
      assert n in Dropped(names, deps);
    }
  }

  /** Once a task is released, every name it asked for and that was not dropped is the name
      of a completed task. */
  lemma ReleasedHasItsNames(names: Names, tasks: Tasks, requested: map<TaskID, set<string>>,
                            dropped: map<TaskID, set<string>>, t: TaskID, n: string)
    requires Mid(tasks) && NamesTracked(names, tasks, requested, dropped)
    requires t in requested && n in requested[t] - dropped[t]
    requires t in tasks && Released(tasks[t].state)
    ensures n in names && names[n].Defined? && names[n].taskId in tasks && tasks[names[n].taskId].state == Completed
  {
    assert NameKept(names, tasks, t, n);
    TaskOkOf(tasks, t);
  }
}
