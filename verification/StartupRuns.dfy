/** Holder/StartupTaskManager with Holder/BaseService around it: requests are queued from any
    thread, services mark themselves ready or failed from outside, and the executor handles
    one action after the other. */
module StartupRuns {
  import opened Collections
  import Runs
  import opened StartupState
  import opened StartupNames
  import opened StartupSteps
  import opened StartupBooks

  /** now: the executor and the failed-startup flags (now.told). completed: the
      completed-startup flags. queue: the oldest action first. nextId: m_nextTaskId. waiting:
      m_waitingTasks. Histories: log, the calls of OnTaskReady; revivals, how often a failed
      task came back to life; marked, whose flag was set by MarkFailed; refused, for whom a
      request to fail was refused; now.byRequest, for whom one was carried out. */
  datatype State = State(
    now: Snapshot, log: seq<TaskID>, waiting: int, completed: set<TaskID>, queue: seq<Action>, nextId: TaskID,
    revivals: nat, marked: set<TaskID>, refused: set<TaskID>)

  const Start := State(Snapshot(map[], map[], {}, {}), [], 0, {}, [], 0, 0, {}, {})

  function BookOf(s: State): Book { Book(s.now, s.log, s.waiting) }

  datatype Step =
    | DefineStartupTask(name: string)
    | Post(action: Action)             // SetStartupDependencies, RunTask, CompleteTask
    | MarkReady(id: TaskID)
    | MarkFailed(id: TaskID)
    | Handle(eager: set<TaskID>)       // eager: who runs its task when told that it is ready

  function Eager(eager: set<TaskID>): TaskID -> bool {
    t => t in eager
  }

  /** The service has set neither flag. */
  predicate Undecided(s: State, id: TaskID) { id !in s.now.told && id !in s.completed }

  predicate FailsTask(action: Action, t: TaskID) { action.CompleteTask? && !action.success && action.id == t }

  ghost predicate HandlesTo(s: State, eager: set<TaskID>, s': State) {
    && s.queue != [] && (s.queue[0].DefineTask? ==> Accepted(s.now, s.queue[0]))
    && BookTo(BookOf(s), s.queue[0], BookOf(s'), Eager(eager))
    && s' == s.(now := s'.now, log := s'.log, waiting := s'.waiting, queue := s.queue[1..],
                revivals := s.revivals + |Revivals(s.now.tasks, s'.now.tasks)|,
                refused := if s.queue[0].CompleteTask? && !s.queue[0].success && !Accepted(s.now, s.queue[0])
                           then s.refused + {s.queue[0].id} else s.refused)
  }

  /** A definition that throws is not handled, and nothing after it. */
  ghost predicate Moves(s: State, step: Step, s': State) {
    match step
    case DefineStartupTask(name) => s' == s.(queue := s.queue + [DefineTask(s.nextId, name)], nextId := s.nextId + 1)
    case Post(action) => !action.DefineTask? && s' == s.(queue := s.queue + [action])
    case MarkReady(id) =>
      id < s.nextId &&
      s' == if Undecided(s, id) then s.(queue := s.queue + [CompleteTask(id, true)], completed := s.completed + {id}) else s
    case MarkFailed(id) =>
      id < s.nextId &&
      s' == if Undecided(s, id)
            then s.(queue := s.queue + [CompleteTask(id, false)], now := s.now.(told := s.now.told + {id}), marked := s.marked + {id})
            else s
    case Handle(eager) => HandlesTo(s, eager, s')
  }

  ghost predicate Initial(s: State) { s == Start }

  ghost predicate Reachable(s: State) { Runs.Reachable(Initial, Moves, s) }

  // ----- the invariant -----

  ghost predicate FailureQueued(queue: seq<Action>, t: TaskID) {
    exists i :: 0 <= i < |queue| && FailsTask(queue[i], t)
  }

  ghost predicate PastWaiting(tasks: Tasks, t: TaskID) {
    t in tasks && tasks[t].state != DepsUnknown && tasks[t].state != WaitingForDeps
  }

  /** What the flags of one service mean. */
  ghost predicate MarkOk(s: State, t: TaskID) {
    && (t in s.marked ==> t in s.now.told)
    && (t in s.now.told ==> t in s.marked || PastWaiting(s.now.tasks, t))
    && (t in s.marked ==> FailureQueued(s.queue, t) || t in s.refused || t in s.now.byRequest)
    && (t in s.now.byRequest ==> PastWaiting(s.now.tasks, t))
    && (t in s.marked && t in s.now.tasks && s.now.tasks[t].state == Failed ==> t in s.now.byRequest)
  }

  /** Task IDs are handed out once: used are those of tasks, and queued definitions have others. */
  ghost predicate FreshIds(queue: seq<Action>, used: set<TaskID>, nextId: TaskID) {
    && (forall t :: t in used ==> t < nextId)
    && (forall i :: 0 <= i < |queue| && queue[i].DefineTask? ==> queue[i].id < nextId)
    && FreshDefinitions(queue, used)
  }

  ghost predicate FreshQueue(s: State) { FreshIds(s.queue, s.now.tasks.Keys, s.nextId) }

  ghost predicate CounterOk(s: State) { s.waiting == |NonTerminal(s.now.tasks)| - s.revivals }

  ghost predicate Inv(s: State) {
    Sound(s.now) && FreshQueue(s) && CounterOk(s) && forall t {:trigger MarkOk(s, t)} :: MarkOk(s, t)
  }

  lemma QueuedStays(queue: seq<Action>, action: Action, t: TaskID)
    ensures FailureQueued(queue, t) || FailsTask(action, t) ==> FailureQueued(queue + [action], t)
  {
    var q := queue + [action];
    if FailureQueued(queue, t) {
      var i :| 0 <= i < |queue| && FailsTask(queue[i], t);
      assert FailsTask(q[i], t);
    } else if FailsTask(action, t) {
      assert FailsTask(q[|queue|], t);
    }
  }

  lemma QueuedAfterFirst(queue: seq<Action>, t: TaskID)
    requires queue != [] && FailureQueued(queue, t) && !FailsTask(queue[0], t)
    ensures FailureQueued(queue[1..], t)
  {
    var i :| 0 <= i < |queue| && FailsTask(queue[i], t);
    assert FailsTask(queue[1..][i - 1], t);
  }

  lemma PostKeepsInv(s: State, step: Step, s': State)
    requires Inv(s) && Moves(s, step, s') && !step.Handle?
    ensures Inv(s')
  {
    if s' != s {
      var action := s'.queue[|s.queue|];
      assert s'.queue == s.queue + [action];
      if step.MarkFailed? {
        MarkingKeeps(s.now.tasks, s.now.told, s.now.byRequest, {step.id});
      }
      forall t ensures MarkOk(s', t) {
        assert MarkOk(s, t);
        QueuedStays(s.queue, action, t);
        if step == MarkFailed(t) && t in s.now.tasks {
          assert FlagOk(s.now.tasks[t], t, s.now.told, Context(s.now.told, s.now.byRequest));
        }
      }
    }
  }

  // ----- handling an action -----

  /** Which tasks an action moves, seen from one task. */
  lemma ActStates(s: Snapshot, action: Action, s': Snapshot, eager: set<TaskID>, t: TaskID)
    requires Sound(s) && ActsTo(s, action, s', Eager(eager)) && (action.DefineTask? ==> action.id !in s.tasks)
    ensures s.tasks.Keys <= s'.tasks.Keys <= s.tasks.Keys + (if action.DefineTask? then {action.id} else {})
    ensures PastWaiting(s.tasks, t) ==> PastWaiting(s'.tasks, t)
    ensures t in s.tasks && s.tasks[t].state != Failed && s'.tasks[t].state == Failed ==> t !in s.told || FailsTask(action, t)
    ensures FailsTask(action, t) && Accepted(s, action) ==> PastWaiting(s'.tasks, t)
  {
    if Accepted(s, action) {
      match action
      case DefineTask(id, name) => DefineStates(s, id, name, s', t);
      case SetDependencies(id, deps) => SetStates(s, id, deps, s', eager, t);
      case RunTask(id) =>
      case CompleteTask(id, success) =>
        if success {
          SucceedStates(s, id, s', eager, t);
        } else {
          FailStates(s, id, s', t);
        }
    }
  }

  lemma DefineStates(s: Snapshot, id: TaskID, name: string, s': Snapshot, t: TaskID)
    requires id !in s.tasks && s'.tasks == ResolvedTasks(s.tasks, id, name, WaitingOn(s.names, name))
    ensures s'.tasks.Keys == s.tasks.Keys + {id}
    ensures t in s.tasks ==> s'.tasks[t].state == s.tasks[t].state
  {
    if t in s.tasks {
      assert s'.tasks[t] == ResolvedTask(s.tasks, id, name, WaitingOn(s.names, name), t);
    }
  }

  lemma SetStates(s: Snapshot, id: TaskID, deps: set<string>, s': Snapshot, eager: set<TaskID>, t: TaskID)
    requires Sound(s) && ActsTo(s, SetDependencies(id, deps), s', Eager(eager)) && Accepted(s, SetDependencies(id, deps))
    ensures s'.tasks.Keys == s.tasks.Keys
    ensures PastWaiting(s.tasks, t) ==> PastWaiting(s'.tasks, t)
    ensures t in s.tasks && s.tasks[t].state != Failed && s'.tasks[t].state == Failed ==> t !in s.told
  {
    var ids, undefined := RecordedIds(s.names, deps), RecordedUndefined(s.names, deps);
    var b := RewiredTasks(s.tasks, id, ids, undefined);
    EvaluatedShape(b, id, s'.tasks, Eager(eager), s.told);
    if t in s.tasks {
      assert b[t] == RewiredTask(s.tasks, id, ids, undefined, t);
      if HasFailedDep(b, id) {
        assert s'.tasks[t].state == b[t].state || NewlyFailed(b, s'.tasks, t);
        assert NewlyFailed(b, s'.tasks, t) ==> CausedBy(b, s'.tasks, {id}, t, s.told);
      }
    }
  }

  lemma SucceedStates(s: Snapshot, id: TaskID, s': Snapshot, eager: set<TaskID>, t: TaskID)
    requires CompletesTo(s.tasks, id, s'.tasks, Eager(eager))
    ensures s'.tasks.Keys == s.tasks.Keys
    ensures PastWaiting(s.tasks, t) ==> PastWaiting(s'.tasks, t)
    ensures t in s.tasks && s'.tasks[t].state == Failed ==> s.tasks[t].state == Failed
  {
    var a1 := s.tasks[id := s.tasks[id].(state := Completed)];
    CompletesToShape(s.tasks, id, s'.tasks, Eager(eager));
    if t in s.tasks {
      assert s'.tasks[t].state == if t in s.tasks[id].dependedOnBy && AllDone(a1, t) then ReadyState(Eager(eager), t) else a1[t].state;
    }
  }

  lemma FailStates(s: Snapshot, id: TaskID, s': Snapshot, t: TaskID)
    requires FailsTo(s.tasks, id, s'.tasks, s.told)
    ensures s'.tasks.Keys == s.tasks.Keys
    ensures PastWaiting(s.tasks, t) ==> PastWaiting(s'.tasks, t)
    ensures t in s.tasks && s.tasks[t].state != Failed && s'.tasks[t].state == Failed ==> t !in s.told || t == id
    ensures PastWaiting(s'.tasks, id)
  {
    var a1 := s.tasks[id := s.tasks[id].(state := Failed)];
    FailsToShape(s.tasks, id, s'.tasks, s.told);
    if t in s.tasks {
      assert s'.tasks[t].state == a1[t].state || NewlyFailed(a1, s'.tasks, t);
      assert NewlyFailed(a1, s'.tasks, t) ==> CausedBy(a1, s'.tasks, s.tasks[id].dependedOnBy, t, s.told);
    }
  }

  lemma ActFlags(s: Snapshot, action: Action, s': Snapshot, eager: set<TaskID>, t: TaskID)
    requires Sound(s) && ActsTo(s, action, s', Eager(eager)) && (action.DefineTask? ==> action.id !in s.tasks)
    ensures s.told <= s'.told
    ensures t in s'.told && t !in s.told ==> PastWaiting(s'.tasks, t)
    ensures s'.byRequest == if FailsTask(action, t) && Accepted(s, action) then s.byRequest + {t}
                            else if action.CompleteTask? && !action.success && Accepted(s, action) then s.byRequest + {action.id}
                            else s.byRequest
  {
    if t in s'.told && t !in s.told {
      assert FlagOk(s'.tasks[t], t, s'.told, Context(s.told, s'.byRequest));
    }
  }

  lemma HandleKeepsMark(s: State, eager: set<TaskID>, s': State, t: TaskID)
    requires Sound(s.now) && FreshQueue(s) && MarkOk(s, t) && HandlesTo(s, eager, s')
    ensures MarkOk(s', t)
  {
    ActStates(s.now, s.queue[0], s'.now, eager, t);
    ActFlags(s.now, s.queue[0], s'.now, eager, t);
    if t in s.marked && FailureQueued(s.queue, t) && !FailsTask(s.queue[0], t) {
      QueuedAfterFirst(s.queue, t);
    }
    if t in s'.now.tasks && t !in s.now.tasks {
      DefineStates(s.now, t, s.queue[0].name, s'.now, t);
    }
  }

  lemma HandleKeepsCounter(s: State, eager: set<TaskID>, s': State)
    requires CounterOk(s) && HandlesTo(s, eager, s')
    ensures CounterOk(s')
  {
    assert Counts(s.now.tasks, s'.now.tasks, s.waiting, s'.waiting);
  }

  lemma FirstUsed(queue: seq<Action>, used: set<TaskID>, used': set<TaskID>, nextId: TaskID)
    requires FreshIds(queue, used, nextId) && queue != []
    requires used' <= used + (if queue[0].DefineTask? then {queue[0].id} else {})
    ensures FreshIds(queue[1..], used', nextId)
  {
  }

  lemma HandleKeepsFresh(s: State, eager: set<TaskID>, s': State)
    requires Sound(s.now) && FreshQueue(s) && HandlesTo(s, eager, s')
    ensures FreshQueue(s')
  {
    ActStates(s.now, s.queue[0], s'.now, eager, 0);
    FirstUsed(s.queue, s.now.tasks.Keys, s'.now.tasks.Keys, s.nextId);
  }

  lemma HandleKeepsSound(s: State, eager: set<TaskID>, s': State)
    requires Sound(s.now) && FreshQueue(s) && HandlesTo(s, eager, s')
    ensures Sound(s'.now)
  {
    ActKeepsSound(s.now, s.queue[0], s'.now, Eager(eager));
  }

  lemma HandleKeepsInv(s: State, eager: set<TaskID>, s': State)
    requires Inv(s) && HandlesTo(s, eager, s')
    ensures Inv(s')
  {
    HandleKeepsSound(s, eager, s');
    HandleKeepsFresh(s, eager, s');
    HandleKeepsCounter(s, eager, s');
    forall t ensures MarkOk(s', t) {
      assert MarkOk(s, t);
      HandleKeepsMark(s, eager, s', t);
    }
  }

  lemma StepKeepsInv(s: State, step: Step, s': State)
    requires Inv(s) && Moves(s, step, s')
    ensures Inv(s')
  {
    if step.Handle? {
      HandleKeepsInv(s, step.eager, s');
    } else {
      PostKeepsInv(s, step, s');
    }
  }

  lemma InvIsInductive()
    ensures Runs.Inductive(Initial, Moves, Inv)
  {
    forall t ensures MarkOk(Start, t) { }
    forall s: State, step: Step, s': State | Inv(s) && Moves(s, step, s') ensures Inv(s') {
      StepKeepsInv(s, step, s');
    }
  }

  lemma ReachableInv(s: State)
    requires Reachable(s)
    ensures Inv(s)
  {
    InvIsInductive();
    Runs.ReachableKeeps(Initial, Moves, Inv, s);
  }

  // ----- who waits on after a failure -----

  /** In every run, a task with a failed dependency has failed, or it still waits: exactly if
      its own service marked it failed, and no request to fail it was carried out. */
  lemma IgnoredFailureIff(s: State, t: TaskID)
    requires Reachable(s) && t in s.now.tasks && HasFailedDep(s.now.tasks, t)
    ensures s.now.tasks[t].state == WaitingForDeps || s.now.tasks[t].state == Failed
    ensures s.now.tasks[t].state == WaitingForDeps <==> t in s.marked && t !in s.now.byRequest
  {
    ReachableInv(s);
    assert MarkOk(s, t);
    TaskOkOf(s.now.tasks, t);
    assert WaitOk(s.now.tasks, t, s.now.told);
  }

  /** What became of the request of a service that marked itself failed. */
  lemma MarkIsQueuedRefusedOrDone(s: State, t: TaskID)
    requires Reachable(s) && t in s.marked
    ensures FailureQueued(s.queue, t) || t in s.refused || t in s.now.byRequest
  {
    ReachableInv(s);
    assert MarkOk(s, t);
  }

  /** A service that did not mark itself failed does not wait for a failed one. */
  lemma UnmarkedIsSettled(s: State, t: TaskID)
    requires Reachable(s) && t in s.now.tasks && s.now.tasks[t].state == WaitingForDeps && t !in s.marked
    ensures !HasFailedDep(s.now.tasks, t)
  {
    ReachableInv(s);
    assert MarkOk(s, t);
    assert WaitOk(s.now.tasks, t, s.now.told);
  }

  // ----- the same in the order of the steps -----

  ghost predicate IsRun(states: seq<State>, steps: seq<Step>) { Runs.IsRun(Initial, Moves, states, steps) }

  ghost predicate HasFailure(s: State, t: TaskID) { t in s.now.tasks && HasFailedDep(s.now.tasks, t) }

  /** Step j sets the flag of t from outside, before any failed dependency was reported to t. */
  ghost predicate MarksFirst(states: seq<State>, steps: seq<Step>, j: nat, t: TaskID) {
    && j < |steps| < |states| && steps[j] == MarkFailed(t) && Undecided(states[j], t)
    && forall i :: 0 <= i <= j ==> !HasFailure(states[i], t)
  }

  lemma StepGrows(s: State, step: Step, s': State)
    requires Moves(s, step, s')
    ensures s.now.told <= s'.now.told && s.now.byRequest <= s'.now.byRequest && s.marked <= s'.marked
  {
  }

  lemma {:induction false} RunGrows(states: seq<State>, steps: seq<Step>, i: nat, k: nat)
    requires IsRun(states, steps) && i <= k <= |steps|
    ensures states[i].now.told <= states[k].now.told
    ensures states[i].now.byRequest <= states[k].now.byRequest
    ensures states[i].marked <= states[k].marked
  {
    if i < k {
      RunGrows(states, steps, i, k - 1);
      assert Moves(states[k - 1], steps[k - 1], states[k]);
      StepGrows(states[k - 1], steps[k - 1], states[k]);
    }
  }

  lemma {:induction false} MarkingStep(states: seq<State>, steps: seq<Step>, k: nat, t: TaskID) returns (j: nat)
    requires IsRun(states, steps) && k <= |steps| && t in states[k].marked
    ensures j < k && steps[j] == MarkFailed(t) && Undecided(states[j], t)
  {
    assert k > 0;
    assert Moves(states[k - 1], steps[k - 1], states[k]);
    if t in states[k - 1].marked {
      j := MarkingStep(states, steps, k - 1, t);
    } else {
      j := k - 1;
    }
  }

  lemma NoFailureUnflagged(s: State, t: TaskID)
    requires Inv(s) && t !in s.now.told && t !in s.now.byRequest
    ensures !HasFailure(s, t)
  {
    if t in s.now.tasks {
      TaskOkOf(s.now.tasks, t);
      assert WaitOk(s.now.tasks, t, s.now.told);
      assert FlagOk(s.now.tasks[t], t, s.now.told, Context(s.now.told, s.now.byRequest));
    }
  }

  lemma InvInRun(states: seq<State>, steps: seq<Step>, k: nat)
    requires IsRun(states, steps) && k <= |steps|
    ensures Inv(states[k])
  {
    InvIsInductive();
    Runs.RunKeeps(Initial, Moves, Inv, states, steps, k);
  }

  lemma IgnoredWasMarked(states: seq<State>, steps: seq<Step>, k: nat, t: TaskID) returns (j: nat)
    requires IsRun(states, steps) && k <= |steps| && t in states[k].marked && t !in states[k].now.byRequest
    ensures j < k && MarksFirst(states, steps, j, t)
  {
    j := MarkingStep(states, steps, k, t);
    forall i | 0 <= i <= j ensures !HasFailure(states[i], t) {
      InvInRun(states, steps, i);
      RunGrows(states, steps, i, j);
      RunGrows(states, steps, i, k);
      NoFailureUnflagged(states[i], t);
    }
  }

  lemma MarkStays(states: seq<State>, steps: seq<Step>, j: nat, k: nat, t: TaskID)
    requires IsRun(states, steps) && j < k <= |steps| && MarksFirst(states, steps, j, t)
    ensures t in states[k].marked
  {
    assert Moves(states[j], steps[j], states[j + 1]);
    RunGrows(states, steps, j + 1, k);
  }

  /** At every point of every run: a task with a failed dependency is still waiting if and only
      if its flag was set from outside before a failed dependency was reported to it, and no
      request to fail it was carried out: its own is still queued or was refused. */
  lemma IgnoredFailureInRun(states: seq<State>, steps: seq<Step>, k: nat, t: TaskID)
    requires IsRun(states, steps) && k <= |steps| && HasFailure(states[k], t)
    ensures states[k].now.tasks[t].state == WaitingForDeps
            <==> (exists j :: 0 <= j < k && MarksFirst(states, steps, j, t)) && t !in states[k].now.byRequest
    ensures states[k].now.tasks[t].state == WaitingForDeps ==> FailureQueued(states[k].queue, t) || t in states[k].refused
  {
    InvInRun(states, steps, k);
    RunsTo(states, steps, k);
    IgnoredFailureIff(states[k], t);
    if states[k].now.tasks[t].state == WaitingForDeps {
      MarkIsQueuedRefusedOrDone(states[k], t);
      var j := IgnoredWasMarked(states, steps, k, t);
    }
    if j: nat :| j < k && MarksFirst(states, steps, j, t) {
      MarkStays(states, steps, j, k, t);
    }
  }

  lemma RunsTo(states: seq<State>, steps: seq<Step>, k: nat)
    requires IsRun(states, steps) && k <= |steps|
    ensures Reachable(states[k])
  {
    var states', steps' := states[..k + 1], steps[..k];
    forall i | 0 <= i < k ensures Moves(states'[i], steps'[i], states'[i + 1]) {
      assert Moves(states[i], steps[i], states[i + 1]);
    }
    assert Runs.IsRun(Initial, Moves, states', steps') && states'[|steps'|] == states[k];
  }

  // ----- absorption, announcements and the counter, over runs -----

  /** No request handled before step k failed a waiting task that may not fail yet. */
  ghost predicate InTurnUntil(states: seq<State>, steps: seq<Step>, k: nat) {
    k <= |steps| < |states| &&
    forall i: nat {:trigger FailsOutOfTurn(states[i], steps[i])} :: i < k ==> !FailsOutOfTurn(states[i], steps[i])
  }

  ghost predicate FailsOutOfTurn(s: State, step: Step) {
    step.Handle? && s.queue != [] && OutOfTurn(s.now, s.queue[0])
  }

  /** A step keeps what is completed, and, if it is in turn, what is failed and the order. */
  lemma StepAbsorbs(s: State, step: Step, s': State)
    requires Inv(s) && Moves(s, step, s')
    ensures KeepsCompleted(s.now.tasks, s'.now.tasks)
    ensures InOrder(BookOf(s)) && !FailsOutOfTurn(s, step) ==>
      InOrder(BookOf(s')) && KeepsFailed(s.now.tasks, s'.now.tasks) && s'.revivals == s.revivals
  {
    if step.Handle? {
      ActAbsorbs(s.now, s.queue[0], s'.now, Eager(step.eager));
      if InOrder(BookOf(s)) && !FailsOutOfTurn(s, step) {
        BookKeepsOrder(BookOf(s), s.queue[0], BookOf(s'), Eager(step.eager));
        assert Revivals(s.now.tasks, s'.now.tasks) == {};
      }
    }
  }

  lemma RunStep(states: seq<State>, steps: seq<Step>, k: nat)
    requires IsRun(states, steps) && k < |steps|
    ensures KeepsCompleted(states[k].now.tasks, states[k + 1].now.tasks)
    ensures InOrder(BookOf(states[k])) && InTurnUntil(states, steps, k + 1) ==>
      && InOrder(BookOf(states[k + 1])) && KeepsFailed(states[k].now.tasks, states[k + 1].now.tasks)
      && states[k + 1].revivals == states[k].revivals
  {
    InvInRun(states, steps, k);
    assert Moves(states[k], steps[k], states[k + 1]);
    StepAbsorbs(states[k], steps[k], states[k + 1]);
    if InTurnUntil(states, steps, k + 1) {
      assert !FailsOutOfTurn(states[k], steps[k]);
    }
  }

  /** At every point of a run that is in turn so far: every failure is explained, OnTaskReady
      was called at most once for each task, and the counter is exact. */
  lemma {:induction false} OrderInRun(states: seq<State>, steps: seq<Step>, k: nat)
    requires IsRun(states, steps) && InTurnUntil(states, steps, k)
    ensures InOrder(BookOf(states[k])) && states[k].revivals == 0
  {
    if k > 0 {
      OrderInRun(states, steps, k - 1);
      RunStep(states, steps, k - 1);
    }
  }

  /** Completed is absorbing between any two points of any run. */
  lemma {:induction false} CompletedInRun(states: seq<State>, steps: seq<Step>, i: nat, k: nat)
    requires IsRun(states, steps) && i <= k <= |steps|
    ensures KeepsCompleted(states[i].now.tasks, states[k].now.tasks)
  {
    if i < k {
      CompletedInRun(states, steps, i, k - 1);
      RunStep(states, steps, k - 1);
      CompletedTrans(states[i].now.tasks, states[k - 1].now.tasks, states[k].now.tasks);
    }
  }

  /** Failed is absorbing between any two points of a run that is in turn. */
  lemma {:induction false} FailedInRun(states: seq<State>, steps: seq<Step>, i: nat, k: nat)
    requires IsRun(states, steps) && i <= k && InTurnUntil(states, steps, k)
    ensures KeepsFailed(states[i].now.tasks, states[k].now.tasks)
  {
    if i < k {
      FailedInRun(states, steps, i, k - 1);
      OrderInRun(states, steps, k - 1);
      RunStep(states, steps, k - 1);
      FailedTrans(states[i].now.tasks, states[k - 1].now.tasks, states[k].now.tasks);
    }
  }

  /** What Run tests, with stop-when-complete, once its queue is drained. */
  ghost predicate WouldEnd(s: State) { s.queue == [] && s.now.tasks != map[] && s.waiting == 0 }

  /** In a run that is in turn, the executor ends by itself exactly with every task terminal. */
  lemma EndInRun(states: seq<State>, steps: seq<Step>, k: nat)
    requires IsRun(states, steps) && InTurnUntil(states, steps, k)
    requires states[k].queue == [] && states[k].now.tasks != map[]
    ensures WouldEnd(states[k]) <==> forall t :: t in states[k].now.tasks ==> Terminal(states[k].now.tasks[t].state)
  {
    OrderInRun(states, steps, k);
    AllTerminalIff(states[k].now.tasks);
  }

  lemma AllTerminalIff(tasks: Tasks)
    ensures |NonTerminal(tasks)| == 0 <==> forall t :: t in tasks ==> Terminal(tasks[t].state)
  {
    forall t | t in tasks ensures t in NonTerminal(tasks) <==> !Terminal(tasks[t].state) { }
    if t :| t in NonTerminal(tasks) { }
  }

  /** In every run the counter lags behind by the revivals. So when the executor would end, as
      many tasks are not terminal as were revived; and with every task terminal it would end if
      and only if none ever was. */
  lemma EndMissesRevivals(s: State)
    requires Reachable(s)
    ensures s.waiting == |NonTerminal(s.now.tasks)| - s.revivals
    ensures WouldEnd(s) ==> |NonTerminal(s.now.tasks)| == s.revivals
    ensures WouldEnd(s) ==> ((forall t :: t in s.now.tasks ==> Terminal(s.now.tasks[t].state)) <==> s.revivals == 0)
    ensures s.queue == [] && s.now.tasks != map[] && (forall t :: t in s.now.tasks ==> Terminal(s.now.tasks[t].state)) ==>
      (WouldEnd(s) <==> s.revivals == 0)
  {
    ReachableInv(s);
    AllTerminalIff(s.now.tasks);
  }

  // ----- a run in which a task waits for a failed one for ever -----

  lemma Defining(s: Snapshot, id: TaskID, name: string, eager: set<TaskID>) returns (s': Snapshot)
    requires Sound(s) && id !in s.tasks && Definable(s.names, name)
    ensures s' == s.(names := s.names[name := Defined(id)], tasks := ResolvedTasks(s.tasks, id, name, WaitingOn(s.names, name)))
    ensures ActsTo(s, DefineTask(id, name), s', Eager(eager)) && Sound(s')
  {
    s' := s.(names := s.names[name := Defined(id)], tasks := ResolvedTasks(s.tasks, id, name, WaitingOn(s.names, name)));
    ResolvedMid(s.names, s.tasks, id, name);
    ResolvedFlags(s.tasks, s.told, s.byRequest, id, name, WaitingOn(s.names, name));
    ActKeepsSound(s, DefineTask(id, name), s', Eager(eager));
  }

  /** New dependencies, none of them failed. */
  lemma Setting(s: Snapshot, id: TaskID, deps: set<string>, eager: set<TaskID>) returns (s': Snapshot)
    requires Sound(s) && Accepted(s, SetDependencies(id, deps))
    requires forall d :: d in RecordedIds(s.names, deps) ==> d in s.tasks && d != id && s.tasks[d].state != Failed
    ensures var b := RewiredTasks(s.tasks, id, RecordedIds(s.names, deps), RecordedUndefined(s.names, deps));
            && id in b && s'.tasks == (if AllDone(b, id) then b[id := b[id].(state := ReadyState(Eager(eager), id))] else b)
    ensures s'.names == RewiredNames(WithNewNames(s.names, deps), id, RecordedUndefined(s.names, deps))
    ensures s'.told == s.told && s'.byRequest == s.byRequest
    ensures ActsTo(s, SetDependencies(id, deps), s', Eager(eager)) && Sound(s')
  {
    var b := RewiredTasks(s.tasks, id, RecordedIds(s.names, deps), RecordedUndefined(s.names, deps));
    RewiredSteady(s, id, deps);
    forall d | d in b ensures b[d].state == if d == id then WaitingForDeps else s.tasks[d].state {
      assert b[d] == RewiredTask(s.tasks, id, RecordedIds(s.names, deps), RecordedUndefined(s.names, deps), d);
    }
    assert b[id].dependsOn == RecordedIds(s.names, deps);
    var c := if AllDone(b, id) then b[id := b[id].(state := ReadyState(Eager(eager), id))] else b;
    if AllDone(b, id) {
      ReadyKeepsMid(b, id, ReadyState(Eager(eager), id));
      FlagsAfterChange(b, id, ReadyState(Eager(eager), id), s.told, Context(s.told, s.byRequest));
    }
    s' := s.(names := RewiredNames(WithNewNames(s.names, deps), id, RecordedUndefined(s.names, deps)), tasks := c);
    ActKeepsSound(s, SetDependencies(id, deps), s', Eager(eager));
  }

  lemma HandledTo(s: State, eager: set<TaskID>, book: Book) returns (s': State)
    requires |s.queue| == 1 && BookTo(BookOf(s), s.queue[0], book, Eager(eager))
    requires s.queue[0].DefineTask? ==> Accepted(s.now, s.queue[0])
    ensures HandlesTo(s, eager, s') && s'.now == book.now && s'.queue == [] && s'.nextId == s.nextId && s'.completed == s.completed
    ensures s'.marked == s.marked
    ensures s'.refused == if s.queue[0].CompleteTask? && !s.queue[0].success && !Accepted(s.now, s.queue[0])
                          then s.refused + {s.queue[0].id} else s.refused
  {
    s' := s.(now := book.now, log := book.log, waiting := book.waiting, queue := s.queue[1..],
             revivals := s.revivals + |Revivals(s.now.tasks, book.now.tasks)|,
             refused := if s.queue[0].CompleteTask? && !s.queue[0].success && !Accepted(s.now, s.queue[0])
                        then s.refused + {s.queue[0].id} else s.refused);
    assert BookOf(s') == book;
  }

  lemma Handled(s: State, eager: set<TaskID>, now: Snapshot) returns (s': State)
    requires Reachable(s) && |s.queue| == 1 && ActsTo(s.now, s.queue[0], now, Eager(eager))
    requires s.queue[0].DefineTask? ==> Accepted(s.now, s.queue[0])
    ensures Reachable(s') && s'.now == now && s'.queue == [] && s'.nextId == s.nextId && s'.completed == s.completed
    ensures s'.marked == s.marked
    ensures s'.refused == if s.queue[0].CompleteTask? && !s.queue[0].success && !Accepted(s.now, s.queue[0])
                          then s.refused + {s.queue[0].id} else s.refused
  {
    ReachableInv(s);
    var book := CanBeBooked(BookOf(s), s.queue[0], now, Eager(eager));
    s' := HandledTo(s, eager, book);
    Runs.NextIsReachable(Initial, Moves, s, Handle(eager), s');
  }

  lemma Posted(s: State, step: Step, action: Action, s': State)
    requires Reachable(s) && s.queue == [] && Moves(s, step, s') && s'.queue == s.queue + [action]
    ensures Reachable(s') && s'.queue == [action]
  {
    Runs.NextIsReachable(Initial, Moves, s, step, s');
  }

  function TwoTasks(state0: TaskState, dependedOnBy: set<TaskID>, state1: TaskState, dependsOn: set<TaskID>,
                    reported: set<TaskID> := {}): Tasks {
    map[0 := TaskDesc("d", state0, {}, {}, dependedOnBy, {}), 1 := TaskDesc("s", state1, {}, dependsOn, {}, reported)]
  }

  ghost predicate BothNames(names: Names) {
    "d" in names && "s" in names && names["d"] == Defined(0) && names["s"] == Defined(1)
  }

  lemma SecondDefined(names: Names)
    requires names == map["d" := Defined(0)]
    ensures Definable(names, "s") && WaitingOn(names, "s") == {} && BothNames(names["s" := Defined(1)])
    ensures ResolvedTasks(map[0 := TaskDesc("d", DepsUnknown, {}, {}, {}, {})], 1, "s", {}) == TwoTasks(DepsUnknown, {}, DepsUnknown, {})
  {
    assert "s"[0] != "d"[0];
  }

  lemma DependsOnD(names: Names)
    requires BothNames(names)
    ensures RecordedIds(names, {"d"}) == {0} && RecordedUndefined(names, {"d"}) == {}
    ensures var b := RewiredTasks(TwoTasks(DepsUnknown, {}, DepsUnknown, {}), 1, {0}, {});
            b == TwoTasks(DepsUnknown, {1}, WaitingForDeps, {0}) && !AllDone(b, 1)
  {
    var s := {"d"};
    assert "d" in s && names["d"].taskId in RecordedIds(names, s);
    assert RecordedIds(names, s) == {0};
    assert Toggled({}, 1, true) == {1} && Toggled({}, 1, false) == {};
    var b := RewiredTasks(TwoTasks(DepsUnknown, {}, DepsUnknown, {}), 1, {0}, {});
    assert b == TwoTasks(DepsUnknown, {1}, WaitingForDeps, {0});
    assert 0 in b[1].dependsOn && b[0].state == DepsUnknown;
  }

  lemma DependsOnNothing(names: Names)
    ensures RecordedIds(names, {}) == {} && RecordedUndefined(names, {}) == {}
    ensures var b := RewiredTasks(TwoTasks(DepsUnknown, {1}, WaitingForDeps, {0}), 0, {}, {});
            && 0 in b && AllDone(b, 0)
            && b[0 := b[0].(state := Ready)] == TwoTasks(Ready, {1}, WaitingForDeps, {0})
  {
    assert Toggled({1}, 0, false) == {1} && Toggled({}, 0, false) == {};
    assert RewiredTasks(TwoTasks(DepsUnknown, {1}, WaitingForDeps, {0}), 0, {}, {}) == TwoTasks(WaitingForDeps, {1}, WaitingForDeps, {0});
  }

  lemma FirstDefined() returns (s: State)
    ensures Reachable(s) && s.queue == [] && s.nextId == 1 && s.marked == {} && s.refused == {} && s.completed == {}
    ensures s.now == Snapshot(map["d" := Defined(0)], map[0 := TaskDesc("d", DepsUnknown, {}, {}, {}, {})], {}, {})
  {
    Runs.InitialIsReachable<State, Step>(Initial, Moves, Start);
    ReachableInv(Start);
    var s1 := Start.(queue := [DefineTask(0, "d")], nextId := 1);
    Posted(Start, DefineStartupTask("d"), DefineTask(0, "d"), s1);
    var n2 := Defining(s1.now, 0, "d", {});
    s := Handled(s1, {}, n2);
  }

  lemma BothDefined() returns (s: State)
    ensures Reachable(s) && s.queue == [] && s.nextId == 2 && s.marked == {} && s.refused == {} && s.completed == {}
    ensures BothNames(s.now.names)
    ensures s.now.tasks == TwoTasks(DepsUnknown, {}, DepsUnknown, {}) && s.now.told == {} && s.now.byRequest == {}
  {
    var s1 := FirstDefined();
    var s2 := s1.(queue := [DefineTask(1, "s")], nextId := 2);
    Posted(s1, DefineStartupTask("s"), DefineTask(1, "s"), s2);
    ReachableInv(s2);
    SecondDefined(s2.now.names);
    var n3 := Defining(s2.now, 1, "s", {});
    s := Handled(s2, {}, n3);
  }

  /** "s", task 1, marks itself failed before it has dependencies: the request is refused. */
  lemma RefusedMark() returns (s: State)
    ensures Reachable(s) && s.queue == []
    ensures BothNames(s.now.names)
    ensures s.now.tasks == TwoTasks(DepsUnknown, {}, DepsUnknown, {})
    ensures s.now.told == {1} && s.now.byRequest == {} && s.marked == {1} && s.refused == {1}
  {
    var s1 := BothDefined();
    var s2 := s1.(queue := [CompleteTask(1, false)], now := s1.now.(told := {1}), marked := {1});
    Posted(s1, MarkFailed(1), CompleteTask(1, false), s2);
    ReachableInv(s2);
    s := Handled(s2, {}, s2.now);
  }

  /** Task 1 depends on task 0 from now on. */
  lemma MarkedDependent() returns (s: State)
    ensures Reachable(s) && s.queue == []
    ensures s.now.tasks == TwoTasks(DepsUnknown, {1}, WaitingForDeps, {0})
    ensures s.now.told == {1} && s.now.byRequest == {} && s.marked == {1} && s.refused == {1}
  {
    var s1 := RefusedMark();
    var s2 := s1.(queue := [SetDependencies(1, {"d"})]);
    Posted(s1, Post(SetDependencies(1, {"d"})), SetDependencies(1, {"d"}), s2);
    ReachableInv(s2);
    DependsOnD(s2.now.names);
    var n3 := Setting(s2.now, 1, {"d"}, {});
    s := Handled(s2, {}, n3);
  }

  /** Task 0 has no dependencies, and is ready. */
  lemma ReadyDependency() returns (s: State)
    ensures Reachable(s) && s.queue == []
    ensures s.now.tasks == TwoTasks(Ready, {1}, WaitingForDeps, {0})
    ensures s.now.told == {1} && s.now.byRequest == {} && s.marked == {1} && s.refused == {1}
  {
    var s1 := MarkedDependent();
    var s2 := s1.(queue := [SetDependencies(0, {})]);
    Posted(s1, Post(SetDependencies(0, {})), SetDependencies(0, {}), s2);
    ReachableInv(s2);
    DependsOnNothing(s2.now.names);
    var n3 := Setting(s2.now, 0, {}, {});
    s := Handled(s2, {}, n3);
  }

  /** Task 0 fails, the listener of task 1 does nothing, and nothing is queued any more. */
  lemma WaitsForFailedForEver() returns (s: State)
    ensures Reachable(s) && s.queue == []
    ensures 1 in s.now.tasks && s.now.tasks[1].state == WaitingForDeps && HasFailedDep(s.now.tasks, 1)
  {
    var s1 := ReadyDependency();
    var s2 := s1.(queue := [CompleteTask(0, false)]);
    Posted(s1, Post(CompleteTask(0, false)), CompleteTask(0, false), s2);
    ReachableInv(s2);
    var a, b := s2.now.tasks, TwoTasks(Failed, {1}, WaitingForDeps, {0}, {0});
    IgnoredFailure(a, b);
    var now := s2.now.(tasks := b, byRequest := {0});
    assert {} + {0} == {0};
    s := Handled(s2, {}, now);
    assert 0 in b[1].dependsOn && 0 in b;
  }

  lemma IgnoredFailure(a: Tasks, b: Tasks)
    requires a == TwoTasks(Ready, {1}, WaitingForDeps, {0}) && b == TwoTasks(Failed, {1}, WaitingForDeps, {0}, {0})
    requires Mid(a)
    ensures FailsTo(a, 0, b, {1}) && Mid(b) && Flags(b, {1}, Context({1}, {0}))
  {
    var a1 := a[0 := a[0].(state := Failed)];
    assert SameShape(a1, b) && SameShape(a, b);
    CascadeNothing(a1, b, a[0].dependedOnBy, {1});
    EdgesSameShape(a, b);
  }
}
