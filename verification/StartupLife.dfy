/** The life of one startup task: where each action takes it, state by state. */
module StartupLife {
  import opened StartupState
  import opened StartupNames
  import opened StartupSteps

  /** What a report of one task makes of it: success counts while it runs, failure also before. */
  lemma ReportOfTask(s: Snapshot, t: TaskID, success: bool, s': Snapshot, runs: TaskID -> bool)
    requires Sound(s) && ActsTo(s, CompleteTask(t, success), s', runs) && t in s.tasks
    ensures s'.tasks.Keys == s.tasks.Keys
    ensures success ==> s'.tasks[t].state == if s.tasks[t].state == Running then Completed else s.tasks[t].state
    ensures !success ==>
      s'.tasks[t].state == match s.tasks[t].state case Running => Failed case Ready => Failed case WaitingForDeps => Failed case other => other
  {
    if success {
      if s.tasks[t].state == Running {
        NotItsOwnDependent(s.tasks, t);
        CompletesToShape(s.tasks, t, s'.tasks, runs);
      }
    } else if Accepted(s, CompleteTask(t, false)) {
      FailsToShape(s.tasks, t, s'.tasks, s.told);
    }
  }

  /** What the report of another task makes of it: success can only release it, failure only
      fail it, and only while it waits; one that failed can come back to life by a success. */
  lemma ReportOfOther(s: Snapshot, id: TaskID, success: bool, s': Snapshot, runs: TaskID -> bool, t: TaskID)
    requires Sound(s) && ActsTo(s, CompleteTask(id, success), s', runs) && t in s.tasks && t != id
    ensures s'.tasks.Keys == s.tasks.Keys
    ensures s'.tasks[t].dependsOn == s.tasks[t].dependsOn && s'.tasks[t].dependsOnUndefined == s.tasks[t].dependsOnUndefined
    ensures s'.tasks[t].state != s.tasks[t].state ==>
      if success then
        && (s.tasks[t].state == WaitingForDeps || s.tasks[t].state == Failed)
        && s'.tasks[t].state == if runs(t) then Running else Ready
      else s.tasks[t].state == WaitingForDeps && s'.tasks[t].state == Failed
  {
    if Accepted(s, CompleteTask(id, success)) {
      if success {
        CompletesToShape(s.tasks, id, s'.tasks, runs);
        if t in s.tasks[id].dependedOnBy {
          DependentOfUnfinished(s.tasks, id, t);
        }
        assert SameTask(s.tasks[t], s'.tasks[t]);
      } else {
        FailureOfOther(s.tasks, id, s'.tasks, s.told, t);
      }
    }
  }

  lemma FailureOfOther(a: Tasks, id: TaskID, b: Tasks, silent: set<TaskID>, t: TaskID)
    requires FailsTo(a, id, b, silent) && t in a && t != id
    ensures a.Keys == b.Keys && SameTask(a[t], b[t])
    ensures b[t].state != a[t].state ==> a[t].state == WaitingForDeps && b[t].state == Failed
  {
    FailsToShape(a, id, b, silent);
    var a1 := a[id := a[id].(state := Failed)];
    assert b[t].state == a1[t].state || NewlyFailed(a1, b, t);
    if NewlyFailed(a1, b, t) {
      assert CausedBy(a1, b, a[id].dependedOnBy, t, silent);
    }
  }

  /** A task takes new dependencies if it has none yet or waits: from then on it depends on the
      tasks behind those of the names that are defined, and waits for the known ones that are
      not. In any other state the request changes nothing. */
  lemma SettingOfTask(s: Snapshot, t: TaskID, deps: set<string>, s': Snapshot, runs: TaskID -> bool)
    requires Sound(s) && ActsTo(s, SetDependencies(t, deps), s', runs) && t in s.tasks
    ensures s'.tasks.Keys == s.tasks.Keys
    ensures s.tasks[t].state == DepsUnknown || s.tasks[t].state == WaitingForDeps ==>
      && s'.tasks[t].dependsOn == (set n | n in deps && n in s.names && s.names[n].Defined? :: s.names[n].taskId)
      && s'.tasks[t].dependsOnUndefined == (set n | n in deps && n in s.names && s.names[n].Pending?)
      && match s'.tasks[t].state case WaitingForDeps => true case Failed => true case Ready => !runs(t) case Running => runs(t) case _ => false
    ensures !(s.tasks[t].state == DepsUnknown || s.tasks[t].state == WaitingForDeps) ==> s' == s
  {
    if Accepted(s, SetDependencies(t, deps)) {
      SettingTakes(s.names, s.tasks, t, deps, s'.tasks, runs, s.told);
    }
  }

  lemma SettingTakes(names: Names, a: Tasks, t: TaskID, deps: set<string>, c: Tasks, runs: TaskID -> bool, silent: set<TaskID>)
    requires SetDependenciesTo(names, a, t, deps, c, runs, silent)
    ensures c.Keys == a.Keys
    ensures c[t].dependsOn == (set n | n in deps && n in names && names[n].Defined? :: names[n].taskId)
    ensures c[t].dependsOnUndefined == (set n | n in deps && n in names && names[n].Pending?)
    ensures match c[t].state case WaitingForDeps => true case Failed => true case Ready => !runs(t) case Running => runs(t) case _ => false
  {
    var ids, undefined := RecordedIds(names, deps), RecordedUndefined(names, deps);
    var b := RewiredTasks(a, t, ids, undefined);
    EvaluatedShape(b, t, c, runs, silent);
    assert b[t] == RewiredTask(a, t, ids, undefined, t);
    assert SameTask(b[t], c[t]);
    if HasFailedDep(b, t) {
      assert c[t].state == b[t].state || NewlyFailed(b, c, t);
    }
  }

  /** New dependencies of another task can only fail it, and only while it waits. */
  lemma SettingOfOther(s: Snapshot, id: TaskID, deps: set<string>, s': Snapshot, runs: TaskID -> bool, t: TaskID)
    requires Sound(s) && ActsTo(s, SetDependencies(id, deps), s', runs) && t in s.tasks && t != id
    ensures s'.tasks.Keys == s.tasks.Keys
    ensures s'.tasks[t].dependsOn == s.tasks[t].dependsOn && s'.tasks[t].dependsOnUndefined == s.tasks[t].dependsOnUndefined
    ensures s'.tasks[t].state != s.tasks[t].state ==> s.tasks[t].state == WaitingForDeps && s'.tasks[t].state == Failed
  {
    if Accepted(s, SetDependencies(id, deps)) {
      var ids, undefined := RecordedIds(s.names, deps), RecordedUndefined(s.names, deps);
      var b := RewiredTasks(s.tasks, id, ids, undefined);
      EvaluatedShape(b, id, s'.tasks, runs, s.told);
      assert b[t] == RewiredTask(s.tasks, id, ids, undefined, t);
      assert SameTask(b[t], s'.tasks[t]);
      if HasFailedDep(b, id) {
        assert s'.tasks[t].state == b[t].state || NewlyFailed(b, s'.tasks, t);
        assert NewlyFailed(b, s'.tasks, t) ==> CausedBy(b, s'.tasks, {id}, t, s.told);
      }
    }
  }

  /** A definition moves the tasks that asked for the name over to the new task, and no state. */
  lemma DefinitionOfOther(s: Snapshot, id: TaskID, name: string, s': Snapshot, runs: TaskID -> bool, t: TaskID)
    requires Sound(s) && ActsTo(s, DefineTask(id, name), s', runs) && id !in s.tasks && t in s.tasks
    ensures t in s'.tasks && s'.tasks[t].state == s.tasks[t].state
    ensures name in s.tasks[t].dependsOnUndefined ==>
      s'.tasks[t].dependsOn == s.tasks[t].dependsOn + {id} && s'.tasks[t].dependsOnUndefined == s.tasks[t].dependsOnUndefined - {name}
    ensures name !in s.tasks[t].dependsOnUndefined ==>
      s'.tasks[t].dependsOn == s.tasks[t].dependsOn && s'.tasks[t].dependsOnUndefined == s.tasks[t].dependsOnUndefined
  {
    if Accepted(s, DefineTask(id, name)) {
      assert s'.tasks[t] == ResolvedTask(s.tasks, id, name, WaitingOn(s.names, name), t);
      if t in WaitingOn(s.names, name) {
        WaitingOnHas(s.names, s.tasks, name, t);
      }
    }
  }
}
