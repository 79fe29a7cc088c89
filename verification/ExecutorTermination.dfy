/** AsyncTasks/AsyncExecutor: if every task answers Complete, every call returns, however the
    calls and the workers interleave: each step uses up some of a measure. */
module ExecutorTermination {
  import opened Collections
  import opened Graphs
  import opened TaskGraph
  import opened ExecutorProtocol

  /** Another round of the executor, without new calls, in which the task run, if any, completes. */
  predicate Completes(step: Step) {
    match step
    case CreateContext(_, _) => false
    case RunLocal(_, complete) => complete
    case RunUnfinished(_, complete) => complete
    case _ => true
  }

  ghost predicate NothingUnfinished(s: State) {
    forall w {:trigger s.workers[w]} :: 0 <= w < |s.workers| ==>
      s.workers[w].unfinished == [] && (s.workers[w].phase.Retrying? ==> s.workers[w].phase.left == 0)
  }

  // ----- the measure -----

  function PhaseRank(phase: ContextPhase): nat {
    match phase
    case Processing => 4
    case Head => 3
    case Posting => 2
    case _ => 1
  }

  function WorkerRank(phase: WorkerPhase): nat {
    match phase
    case Draining => 4
    case Retrying(_) => 3
    case Reporting => 2
    case Idle => 1
  }

  ghost function Unreleased(ctx: Context): set<TaskID> {
    ctx.graph.Keys - Eligible(ctx.graph, ctx.done)
  }

  /** What is still to be done with each task, by where it is: a task of weight n goes through
      at most n steps. */
  ghost function ContextWork(ctx: Context): nat {
    13 * |Unreleased(ctx)| + 12 * |ctx.taskList| + 5 * |ctx.completionQueue| + |ctx.local| + PhaseRank(ctx.phase)
  }

  function WorkerWork(worker: Worker): nat {
    11 * |worker.todo| + 7 * |worker.local| + 6 * |worker.messages| + WorkerRank(worker.phase)
  }

  ghost function ContextsWork(contexts: map<ContextID, Context>, n: nat): nat {
    if n == 0 then 0 else ContextsWork(contexts, n - 1) + WorkAt(contexts, n - 1)
  }

  ghost function WorkAt(contexts: map<ContextID, Context>, c: ContextID): nat {
    if c in contexts then ContextWork(contexts[c]) else 0
  }

  function WorkersWork(workers: seq<Worker>): nat {
    if workers == [] then 0 else WorkerWork(workers[0]) + WorkersWork(workers[1..])
  }

  ghost function Work(s: State): nat {
    ContextsWork(s.contexts, s.nextContext) + WorkersWork(s.workers)
  }

  /** Two tables that differ at c only. */
  lemma {:induction false} ContextsDiffer(a: map<ContextID, Context>, b: map<ContextID, Context>, c: ContextID, n: nat)
    requires forall d {:trigger WorkAt(a, d)} :: d != c ==> WorkAt(b, d) == WorkAt(a, d)
    ensures ContextsWork(b, n) + (if c < n then WorkAt(a, c) else 0) == ContextsWork(a, n) + (if c < n then WorkAt(b, c) else 0)
  {
    if n > 0 {
      ContextsDiffer(a, b, c, n - 1);
    }
  }

  lemma ContextsUpdate(contexts: map<ContextID, Context>, c: ContextID, x: Context, n: nat)
    requires c in contexts && c < n
    ensures ContextsWork(contexts[c := x], n) + ContextWork(contexts[c]) == ContextsWork(contexts, n) + ContextWork(x)
  {
    ContextsDiffer(contexts, contexts[c := x], c, n);
  }

  lemma ContextsRemove(contexts: map<ContextID, Context>, c: ContextID, n: nat)
    requires c in contexts && c < n
    ensures ContextsWork(contexts - {c}, n) + ContextWork(contexts[c]) == ContextsWork(contexts, n)
  {
    ContextsDiffer(contexts, contexts - {c}, c, n);
  }

  lemma {:induction false} WorkersUpdate(ws: seq<Worker>, w: nat, x: Worker)
    requires w < |ws|
    ensures WorkersWork(ws[w := x]) + WorkerWork(ws[w]) == WorkersWork(ws) + WorkerWork(x)
  {
    if w == 0 {
      assert ws[0 := x][1..] == ws[1..];
    } else {
      WorkersUpdate(ws[1..], w - 1, x);
      assert ws[w := x][1..] == ws[1..][w - 1 := x];
    }
  }

  lemma ContextNumbered(s: State, c: ContextID)
    requires ActorsOk(s) && c in s.contexts
    ensures c < s.nextContext
  {
    assert ContextOk(s.contexts[c]);
  }

  // ----- every step uses up work -----

  lemma ContextStepWorks(s: State, c: ContextID, x: Context)
    requires ActorsOk(s) && c in s.contexts && ContextWork(x) < ContextWork(s.contexts[c])
    ensures Work(SetContext(s, c, x)) < Work(s)
  {
    ContextNumbered(s, c);
    ContextsUpdate(s.contexts, c, x, s.nextContext);
  }

  lemma WorkerStepWorks(s: State, w: nat, x: Worker)
    requires w < |s.workers| && WorkerWork(x) < WorkerWork(s.workers[w])
    ensures Work(SetWorker(s, w, x)) < Work(s)
  {
    WorkersUpdate(s.workers, w, x);
  }

  lemma TransferWorks(s: State, c: ContextID, ctx: Context, w: nat, x: Worker)
    requires ActorsOk(s) && c in s.contexts && w < |s.workers|
    requires ContextWork(ctx) + WorkerWork(x) < ContextWork(s.contexts[c]) + WorkerWork(s.workers[w])
    ensures Work(SetWorker(SetContext(s, c, ctx), w, x)) < Work(s)
  {
    ContextNumbered(s, c);
    ContextsUpdate(s.contexts, c, ctx, s.nextContext);
    WorkersUpdate(s.workers, w, x);
  }

  /** What a completion releases leaves the tasks that are not released yet. */
  lemma ReleasedWork(ctx: Context, released: seq<TaskID>)
    requires ctx.local != [] && Releases(ctx.graph, ctx.done, ctx.local[0], released)
    ensures var x := ctx.(done := ctx.done + [ctx.local[0]], local := ctx.local[1..], taskList := ctx.taskList + released);
            ContextWork(x) < ContextWork(ctx)
  {
    var x := ctx.(done := ctx.done + [ctx.local[0]], local := ctx.local[1..], taskList := ctx.taskList + released);
    RangeSize(released);
    assert Unreleased(ctx) == Unreleased(x) + Range(released);
  }

  lemma PrivateContextWorks(s: State, step: Step)
    requires Inv(s) && Enabled(s, step)
    requires step.TestPending? || step.DonePosting? || step.SwapCompletions? || step.DoneProcessing?
    ensures Work(Apply(s, step)) < Work(s)
  {
    ContextStepWorks(s, step.c, Apply(s, step).contexts[step.c]);
  }

  lemma DeleteWorks(s: State, c: ContextID)
    requires Inv(s) && Enabled(s, DeleteContext(c))
    ensures Work(Apply(s, DeleteContext(c))) < Work(s)
  {
    ContextNumbered(s, c);
    ContextsRemove(s.contexts, c, s.nextContext);
  }

  lemma PrivateWorkerWorks(s: State, step: Step)
    requires Inv(s) && Enabled(s, step) && Completes(step) && NothingUnfinished(s)
    requires step.SwapTodo? || step.RunLocal? || step.DoneLocal? || step.DoneRetrying? || step.DoneReporting?
    ensures Work(Apply(s, step)) < Work(s) && NothingUnfinished(Apply(s, step))
  {
    assert WorkerOk(s.workers[step.w]);
    WorkerStepWorks(s, step.w, Apply(s, step).workers[step.w]);
  }

  lemma ReportWorks(s: State, w: nat)
    requires Inv(s) && Enabled(s, ReportOne(w))
    ensures Work(Apply(s, ReportOne(w))) < Work(s)
  {
    MessageFindsContext(s, w);
    var worker := s.workers[w];
    var msg := worker.messages[0];
    var ctx := s.contexts[msg.context];
    var x, ctx' := worker.(messages := worker.messages[1..]), ctx.(completionQueue := ctx.completionQueue + [msg.task]);
    TransferWorks(s, msg.context, ctx', w, x);
    assert Apply(s, ReportOne(w)) == SetWorker(SetContext(s, msg.context, ctx'), w, x);
  }

  /** Every step but a new call uses up work, if the tasks complete. */
  lemma StepUsesWork(s: State, step: Step)
    requires Inv(s) && Enabled(s, step) && Completes(step) && NothingUnfinished(s)
    ensures Work(Apply(s, step)) < Work(s) && NothingUnfinished(Apply(s, step))
  {
    match step
    case PostTask(c, w) =>
      var ctx, worker := s.contexts[c], s.workers[w];
      TransferWorks(s, c, ctx.(taskList := ctx.taskList[1..]), w,
                    worker.(todo := worker.todo + [Token(c, ctx.taskList[0])], load := worker.load + 1));
    case ProcessCompletion(c, released) =>
      ReleasedWork(s.contexts[c], released);
      ContextStepWorks(s, c, Apply(s, step).contexts[c]);
    case DeleteContext(c) => DeleteWorks(s, c);
    case ReportOne(w) => ReportWorks(s, w);
    case RunUnfinished(w, _) =>
    case TestPending(c) => PrivateContextWorks(s, step);
    case DonePosting(c) => PrivateContextWorks(s, step);
    case SwapCompletions(c) => PrivateContextWorks(s, step);
    case DoneProcessing(c) => PrivateContextWorks(s, step);
    case _ => PrivateWorkerWorks(s, step);
  }

  // ----- every schedule ends, with every call answered -----

  /** Steps of any calls and workers in any order, from states[0] on. */
  ghost predicate Schedule(states: seq<State>, steps: seq<Step>) {
    && |states| == |steps| + 1
    && forall i {:trigger steps[i]} :: 0 <= i < |steps| ==> Completes(steps[i]) && Moves(states[i], steps[i], states[i + 1])
  }

  lemma {:induction false} ScheduleUsesWork(states: seq<State>, steps: seq<Step>, k: nat)
    requires Schedule(states, steps) && Inv(states[0]) && NothingUnfinished(states[0]) && k <= |steps|
    ensures Inv(states[k]) && NothingUnfinished(states[k])
    ensures k + Work(states[k]) <= Work(states[0])
  {
    if k > 0 {
      ScheduleUsesWork(states, steps, k - 1);
      assert Moves(states[k - 1], steps[k - 1], states[k]);
      StepKeepsInv(states[k - 1], steps[k - 1]);
      StepUsesWork(states[k - 1], steps[k - 1]);
    }
  }

  /** Whatever the interleaving of any number of calls and workers: with tasks that complete, a
      schedule has at most Work steps, and it can always be continued while a call is open.
      So every call returns, and then its verdict is exact (VerdictInEveryRun). */
  lemma EveryCallReturns(states: seq<State>, steps: seq<Step>)
    requires Schedule(states, steps) && Inv(states[0]) && NothingUnfinished(states[0])
    ensures |steps| <= Work(states[0])
    ensures (forall step :: Completes(step) ==> !Enabled(states[|steps|], step)) <==> states[|steps|].contexts == map[] && EveryoneWaits(states[|steps|])
  {
    ScheduleUsesWork(states, steps, |steps|);
    var s := states[|steps|];
    if forall step :: Completes(step) ==> !Enabled(s, step) {
      NotStuckByAnswers(s);
      StuckIffEveryoneWaits(s);
      if s.contexts != map[] { NoStuckWithoutUnfinished(s); }
    }
    if s.contexts == map[] && EveryoneWaits(s) {
      StuckIffEveryoneWaits(s);
    }
  }

  /** If no step with a completing task is possible, none is. */
  lemma NotStuckByAnswers(s: State)
    requires forall step :: Completes(step) ==> !Enabled(s, step)
    ensures Stuck(s)
  {
    forall step: Step | !step.CreateContext? ensures !Enabled(s, step) {
      if step.RunLocal? {
        assert !Enabled(s, RunLocal(step.w, true));
      } else if step.RunUnfinished? {
        assert !Enabled(s, RunUnfinished(step.w, true));
      }
    }
  }
}
