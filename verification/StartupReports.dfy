/** Whole runs of the startup executor, told by its requests: which are handled and when, and
    in which state a task is, given the reports about it. */
module StartupReports {
  import opened StartupState
  import opened StartupSteps
  import opened StartupLife
  import opened StartupRuns

  predicate InState(s: State, t: TaskID, state: TaskState) { t in s.now.tasks && s.now.tasks[t].state == state }

  /** The step handles that action. */
  predicate Handles(s: State, step: Step, action: Action) { step.Handle? && s.queue != [] && s.queue[0] == action }

  /** The step handles a report of the task. */
  predicate Reported(s: State, step: Step, t: TaskID) {
    step.Handle? && s.queue != [] && s.queue[0].CompleteTask? && s.queue[0].id == t
  }

  lemma MoveAt(states: seq<State>, steps: seq<Step>, k: nat)
    requires IsRun(states, steps) && k < |steps|
    ensures Inv(states[k]) && Moves(states[k], steps[k], states[k + 1])
  {
    InvInRun(states, steps, k);
    assert Moves(states[k], steps[k], states[k + 1]);
  }

  // ----- one step -----

  /** A report that is handled takes its task, running, to Completed or Failed; a failure does
      so before it runs too; and any other state stays. */
  lemma ReportHandled(states: seq<State>, steps: seq<Step>, k: nat, t: TaskID, success: bool)
    requires IsRun(states, steps) && k < |steps| && Handles(states[k], steps[k], CompleteTask(t, success)) && t in states[k].now.tasks
    ensures t in states[k + 1].now.tasks
    ensures states[k + 1].now.tasks[t].state ==
            match states[k].now.tasks[t].state
            case Running => if success then Completed else Failed
            case Ready => if success then Ready else Failed
            case WaitingForDeps => if success then WaitingForDeps else Failed
            case other => other
  {
    MoveAt(states, steps, k);
    ReportOfTask(states[k].now, t, success, states[k + 1].now, Eager(steps[k].eager));
  }

  /** How a task that exists comes to run, and stops. */
  lemma RunningStep(s: State, step: Step, s': State, t: TaskID)
    requires Inv(s) && Moves(s, step, s') && t in s.now.tasks
    ensures t in s'.now.tasks
    ensures s.now.tasks[t].state == Running ==> (s'.now.tasks[t].state == Running <==> !Reported(s, step, t))
    ensures s.now.tasks[t].state != Running ==>
      (s'.now.tasks[t].state == Running <==>
        || (Handles(s, step, RunTask(t)) && s.now.tasks[t].state == Ready)
        || (step.Handle? && t in step.eager && s.now.tasks[t].state != Ready && (s'.now.tasks[t].state == Ready || s'.now.tasks[t].state == Running)))
  {
    if step.Handle? {
      HandledRunning(s, step.eager, s', t);
    }
  }

  lemma HandledRunning(s: State, eager: set<TaskID>, s': State, t: TaskID)
    requires Inv(s) && HandlesTo(s, eager, s') && t in s.now.tasks
    ensures t in s'.now.tasks
    ensures s.now.tasks[t].state == Running ==> (s'.now.tasks[t].state == Running <==> !Reported(s, Handle(eager), t))
    ensures s.now.tasks[t].state != Running && s'.now.tasks[t].state == Running ==>
      || (s.queue[0] == RunTask(t) && s.now.tasks[t].state == Ready)
      || (t in eager && s.now.tasks[t].state != Ready)
    ensures s.queue[0] == RunTask(t) && s.now.tasks[t].state == Ready ==> s'.now.tasks[t].state == Running
    ensures s.now.tasks[t].state != Ready && t in eager ==> s'.now.tasks[t].state != Ready
  {
    var a, b, runs := s.now, s'.now, Eager(eager);
    match s.queue[0]
    case DefineTask(id, name) => DefinitionOfOther(a, id, name, b, runs, t);
    case SetDependencies(id, deps) => if id == t { SettingOfTask(a, t, deps, b, runs); } else { SettingOfOther(a, id, deps, b, runs, t); }
    case RunTask(id) =>
    case CompleteTask(id, success) =>
      if id == t { ReportOfTask(a, t, success, b, runs); } else { ReportOfOther(a, id, success, b, runs, t); }
  }

  lemma NewTaskIsNotRunning(s: State, step: Step, s': State, t: TaskID)
    requires Inv(s) && Moves(s, step, s') && t !in s.now.tasks && t in s'.now.tasks
    ensures s'.now.tasks[t].state == DepsUnknown
  {
    ActStates(s.now, s.queue[0], s'.now, step.eager, t);
  }

  // ----- who is running -----

  /** Step j starts the task. */
  predicate Starts(states: seq<State>, steps: seq<Step>, j: nat, t: TaskID) {
    j < |steps| < |states| && !InState(states[j], t, Running) && InState(states[j + 1], t, Running)
  }

  predicate ReportedAt(states: seq<State>, steps: seq<Step>, i: nat, t: TaskID) {
    i < |steps| < |states| && Reported(states[i], steps[i], t)
  }

  ghost predicate NotReported(states: seq<State>, steps: seq<Step>, j: nat, k: nat, t: TaskID) {
    forall i: nat {:trigger ReportedAt(states, steps, i, t)} :: j < i < k ==> !ReportedAt(states, steps, i, t)
  }

  lemma RunningAfter(states: seq<State>, steps: seq<Step>, k: nat, t: TaskID)
    requires IsRun(states, steps) && k < |steps|
    ensures InState(states[k], t, Running) ==> (InState(states[k + 1], t, Running) <==> !ReportedAt(states, steps, k, t))
  {
    MoveAt(states, steps, k);
    if t in states[k].now.tasks {
      RunningStep(states[k], steps[k], states[k + 1], t);
    }
  }

  /** Up to step k a task that runs stops running with a report and with nothing else. */
  ghost predicate RunsUntilReported(states: seq<State>, steps: seq<Step>, k: nat, t: TaskID) {
    && k <= |steps| < |states| && !InState(states[0], t, Running)
    && forall i: nat {:trigger ReportedAt(states, steps, i, t)} :: i < k && InState(states[i], t, Running) ==>
         (InState(states[i + 1], t, Running) <==> !ReportedAt(states, steps, i, t))
  }

  lemma EveryTaskRunsUntilReported(states: seq<State>, steps: seq<Step>, k: nat, t: TaskID)
    requires IsRun(states, steps) && k <= |steps|
    ensures RunsUntilReported(states, steps, k, t)
  {
    forall i: nat | i < k ensures InState(states[i], t, Running) ==> (InState(states[i + 1], t, Running) <==> !ReportedAt(states, steps, i, t)) {
      RunningAfter(states, steps, i, t);
    }
  }

  lemma {:induction false} LastStart(states: seq<State>, steps: seq<Step>, k: nat, t: TaskID) returns (j: nat)
    requires RunsUntilReported(states, steps, k, t) && InState(states[k], t, Running)
    ensures j < k && Starts(states, steps, j, t) && NotReported(states, steps, j, k, t)
  {
    assert k > 0;
    if InState(states[k - 1], t, Running) {
      j := LastStart(states, steps, k - 1, t);
      assert !ReportedAt(states, steps, k - 1, t);
    } else {
      j := k - 1;
    }
  }

  lemma {:induction false} StillRunning(states: seq<State>, steps: seq<Step>, j: nat, k: nat, t: TaskID)
    requires RunsUntilReported(states, steps, k, t) && j < k && Starts(states, steps, j, t) && NotReported(states, steps, j, k, t)
    ensures InState(states[k], t, Running)
  {
    if j < k - 1 {
      StillRunning(states, steps, j, k - 1, t);
      assert !ReportedAt(states, steps, k - 1, t);
    }
  }

  /** At every point of every run a task is running if and only if it was started and no report
      of it has been handled since. */
  lemma RunningIff(states: seq<State>, steps: seq<Step>, k: nat, t: TaskID)
    requires IsRun(states, steps) && k <= |steps|
    ensures InState(states[k], t, Running) <==>
            exists j: nat :: j < k && Starts(states, steps, j, t) && NotReported(states, steps, j, k, t)
  {
    EveryTaskRunsUntilReported(states, steps, k, t);
    if InState(states[k], t, Running) {
      var j := LastStart(states, steps, k, t);
    }
    if j: nat :| j < k && Starts(states, steps, j, t) && NotReported(states, steps, j, k, t) {
      StillRunning(states, steps, j, k, t);
    }
  }

  // ----- who is completed -----

  lemma CompletedStep(s: State, step: Step, s': State, t: TaskID)
    requires Inv(s) && Moves(s, step, s')
    ensures InState(s', t, Completed) <==> InState(s, t, Completed) || (Handles(s, step, CompleteTask(t, true)) && InState(s, t, Running))
  {
    if step.Handle? {
      if t in s.now.tasks {
        HandledCompleted(s, step.eager, s', t);
      } else if t in s'.now.tasks {
        NewTaskIsNotRunning(s, step, s', t);
      }
    }
  }

  lemma HandledCompleted(s: State, eager: set<TaskID>, s': State, t: TaskID)
    requires Inv(s) && HandlesTo(s, eager, s') && t in s.now.tasks
    ensures t in s'.now.tasks
    ensures s'.now.tasks[t].state == Completed <==>
            s.now.tasks[t].state == Completed || (s.queue[0] == CompleteTask(t, true) && s.now.tasks[t].state == Running)
  {
    var a, b, runs := s.now, s'.now, Eager(eager);
    match s.queue[0]
    case DefineTask(id, name) => DefinitionOfOther(a, id, name, b, runs, t);
    case SetDependencies(id, deps) => if id == t { SettingOfTask(a, t, deps, b, runs); } else { SettingOfOther(a, id, deps, b, runs, t); }
    case RunTask(id) =>
    case CompleteTask(id, success) =>
      if id == t { ReportOfTask(a, t, success, b, runs); } else { ReportOfOther(a, id, success, b, runs, t); }
  }

  /** Step i handles a report of the task's success while it is running. */
  predicate SucceedsAt(states: seq<State>, steps: seq<Step>, i: nat, t: TaskID) {
    i < |steps| < |states| && Handles(states[i], steps[i], CompleteTask(t, true)) && InState(states[i], t, Running)
  }

  lemma CompletedAfter(states: seq<State>, steps: seq<Step>, k: nat, t: TaskID)
    requires IsRun(states, steps) && k < |steps|
    ensures InState(states[k + 1], t, Completed) <==> InState(states[k], t, Completed) || SucceedsAt(states, steps, k, t)
  {
    MoveAt(states, steps, k);
    CompletedStep(states[k], steps[k], states[k + 1], t);
  }

  /** Up to step k a task completes with a success and with nothing else, and for good. */
  ghost predicate CompletesBySuccess(states: seq<State>, steps: seq<Step>, k: nat, t: TaskID) {
    && k <= |steps| < |states| && !InState(states[0], t, Completed)
    && forall i: nat {:trigger SucceedsAt(states, steps, i, t)} :: i < k ==>
         (InState(states[i + 1], t, Completed) <==> InState(states[i], t, Completed) || SucceedsAt(states, steps, i, t))
  }

  lemma EveryTaskCompletesBySuccess(states: seq<State>, steps: seq<Step>, k: nat, t: TaskID)
    requires IsRun(states, steps) && k <= |steps|
    ensures CompletesBySuccess(states, steps, k, t)
  {
    forall i: nat | i < k
      ensures InState(states[i + 1], t, Completed) <==> InState(states[i], t, Completed) || SucceedsAt(states, steps, i, t) {
      CompletedAfter(states, steps, i, t);
    }
  }

  lemma {:induction false} CompletedSince(states: seq<State>, steps: seq<Step>, k: nat, t: TaskID)
    requires CompletesBySuccess(states, steps, k, t)
    ensures InState(states[k], t, Completed) <==> exists j: nat :: j < k && SucceedsAt(states, steps, j, t)
  {
    if k > 0 {
      CompletedSince(states, steps, k - 1, t);
      assert SucceedsAt(states, steps, k - 1, t) || !SucceedsAt(states, steps, k - 1, t);
    }
  }

  /** At every point of every run a task is completed if and only if a report of its success
      was handled while it was running. */
  lemma CompletedIff(states: seq<State>, steps: seq<Step>, k: nat, t: TaskID)
    requires IsRun(states, steps) && k <= |steps|
    ensures InState(states[k], t, Completed) <==> exists j: nat :: j < k && SucceedsAt(states, steps, j, t)
  {
    EveryTaskCompletesBySuccess(states, steps, k, t);
    CompletedSince(states, steps, k, t);
  }

  // ----- who waits -----

  /** At every point of every run a waiting task waits for a name not defined yet or for a task
      not completed, and, unless its service marked itself failed, for no failed one. */
  lemma WaitsForSomething(states: seq<State>, steps: seq<Step>, k: nat, t: TaskID)
    requires IsRun(states, steps) && k <= |steps| && InState(states[k], t, WaitingForDeps)
    ensures var tasks := states[k].now.tasks;
            && (forall d :: d in tasks[t].dependsOn ==> d in tasks)
            && (tasks[t].dependsOnUndefined != {} || exists d :: d in tasks[t].dependsOn && tasks[d].state != Completed)
            && (t !in states[k].marked ==> forall d :: d in tasks[t].dependsOn ==> tasks[d].state != Failed)
  {
    InvInRun(states, steps, k);
    assert MarkOk(states[k], t);
    assert WaitOk(states[k].now.tasks, t, states[k].now.told);
    assert !AllDone(states[k].now.tasks, t);
  }

  // ----- requests are handled in order -----

  /** What a step asks of the executor. */
  function Request(s: State, step: Step): seq<Action> {
    match step
    case DefineStartupTask(name) => [DefineTask(s.nextId, name)]
    case Post(action) => [action]
    case MarkReady(id) => if id in s.now.told || id in s.completed then [] else [CompleteTask(id, true)]
    case MarkFailed(id) => if id in s.now.told || id in s.completed then [] else [CompleteTask(id, false)]
    case Handle(_) => []
  }

  /** What was asked in the first k steps. */
  function Requests(states: seq<State>, steps: seq<Step>, k: nat): seq<Action>
    requires k <= |steps| < |states|
  {
    if k == 0 then [] else Requests(states, steps, k - 1) + Request(states[k - 1], steps[k - 1])
  }

  function HandledBy(steps: seq<Step>, k: nat): nat
    requires k <= |steps|
  {
    if k == 0 then 0 else HandledBy(steps, k - 1) + if steps[k - 1].Handle? then 1 else 0
  }

  lemma QueueStep(s: State, step: Step, s': State)
    requires Moves(s, step, s')
    ensures step.Handle? ==> s.queue != [] && s'.queue == s.queue[1..]
    ensures !step.Handle? ==> s'.queue == s.queue + Request(s, step)
  {
  }

  lemma QueueShift(requests: seq<Action>, n: nat, queue: seq<Action>, asked: seq<Action>)
    requires n <= |requests| && queue == requests[n..]
    ensures queue + asked == (requests + asked)[n..]
    ensures queue != [] ==> queue[1..] == requests[n + 1..] && queue[0] == requests[n]
  {
  }

  lemma {:induction false} QueueIs(states: seq<State>, steps: seq<Step>, k: nat)
    requires IsRun(states, steps) && k <= |steps|
    ensures HandledBy(steps, k) <= |Requests(states, steps, k)|
    ensures states[k].queue == Requests(states, steps, k)[HandledBy(steps, k)..]
  {
    if k > 0 {
      QueueIs(states, steps, k - 1);
      MoveAt(states, steps, k - 1);
      QueueStep(states[k - 1], steps[k - 1], states[k]);
      QueueShift(Requests(states, steps, k - 1), HandledBy(steps, k - 1), states[k - 1].queue, Request(states[k - 1], steps[k - 1]));
    }
  }

  /** The n-th action that a run handles is the n-th that was asked for. */
  lemma NthHandledIsNthRequested(states: seq<State>, steps: seq<Step>, k: nat)
    requires IsRun(states, steps) && k < |steps| && steps[k].Handle?
    ensures var n, requests := HandledBy(steps, k), Requests(states, steps, k);
            n < |requests| && Handles(states[k], steps[k], requests[n])
  {
    MoveAt(states, steps, k);
    QueueStep(states[k], steps[k], states[k + 1]);
    QueueIs(states, steps, k);
  }

  lemma {:induction false} RequestsGrow(states: seq<State>, steps: seq<Step>, i: nat, k: nat)
    requires i <= k <= |steps| < |states|
    ensures Requests(states, steps, i) <= Requests(states, steps, k)
  {
    if i < k {
      RequestsGrow(states, steps, i, k - 1);
    }
  }

  lemma {:induction false} HandlingOf(steps: seq<Step>, k: nat, n: nat) returns (h: nat)
    requires k <= |steps| && n < HandledBy(steps, k)
    ensures h < k && steps[h].Handle? && HandledBy(steps, h) == n
  {
    if HandledBy(steps, k - 1) <= n {
      h := k - 1;
    } else {
      h := HandlingOf(steps, k - 1, n);
    }
  }

  /** With the queue drained, everything asked for has been handled. */
  lemma RequestIsHandled(states: seq<State>, steps: seq<Step>, i: nat, k: nat) returns (h: nat)
    requires IsRun(states, steps) && i < k <= |steps| && Request(states[i], steps[i]) != [] && states[k].queue == []
    ensures i < h < k && Handles(states[h], steps[h], Request(states[i], steps[i])[0])
  {
    var n := |Requests(states, steps, i)|;
    QueueIs(states, steps, k);
    RequestAt(states, steps, i, k);
    h := HandlingOf(steps, k, n);
    NthHandledIsNthRequested(states, steps, h);
    RequestAt(states, steps, i, h);
  }

  lemma RequestAt(states: seq<State>, steps: seq<Step>, i: nat, k: nat)
    requires i < |steps| < |states| && k <= |steps| && Request(states[i], steps[i]) != []
    ensures var n, requests := |Requests(states, steps, i)|, Requests(states, steps, k);
            (i < k <==> n < |requests|) && (i < k ==> requests[n] == Request(states[i], steps[i])[0])
  {
    if i < k {
      RequestsGrow(states, steps, i + 1, k);
    } else {
      RequestsGrow(states, steps, k, i);
    }
  }

  /** The step reports the task. */
  predicate Reports(s: State, step: Step, t: TaskID) {
    var asked := Request(s, step);
    asked != [] && asked[0].CompleteTask? && asked[0].id == t
  }

  /** If every start of a task is followed by a report of it and the queue is drained, the task
      is not left running. */
  lemma NotLeftRunning(states: seq<State>, steps: seq<Step>, k: nat, t: TaskID)
    requires IsRun(states, steps) && k <= |steps| && states[k].queue == []
    requires forall j: nat :: j < k && Starts(states, steps, j, t) ==> exists i :: j < i < k && Reports(states[i], steps[i], t)
    ensures !InState(states[k], t, Running)
  {
    if InState(states[k], t, Running) {
      EveryTaskRunsUntilReported(states, steps, k, t);
      var j := LastStart(states, steps, k, t);
      var i :| j < i < k && Reports(states[i], steps[i], t);
      var h := RequestIsHandled(states, steps, i, k);
      assert ReportedAt(states, steps, h, t);
      assert false;
    }
  }
}
