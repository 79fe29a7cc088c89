/** AsyncTasks/AsyncExecutor: any number of ExecuteGraph calls sharing any number of
    workers. Every region the source guards by a mutex, and every private step of a worker
    or of a context, is one atomic step; the steps interleave freely. */
module ExecutorProtocol {
  import opened Collections
  import opened Graphs
  import Runs
  import opened TaskGraph

  type ContextID = nat

  /** A packaged task, and the completion message made from it. */
  datatype Token = Token(context: ContextID, task: TaskID)

  datatype ContextPhase =
    | Head          // about to test pendingTasks
    | Posting       // handing the task list to workers
    | Waiting       // waiting on the completion queue
    | Processing    // draining the swapped-out completions
    | Finished(complete: bool)

  datatype Context = Context(
    graph: Graph,
    done: seq<TaskID>,
    phase: ContextPhase,
    pending: int,
    taskList: seq<TaskID>,
    completionQueue: seq<TaskID>,   // shared, filled by workers
    local: seq<TaskID>)             // swapped out, being drained

  datatype WorkerPhase =
    | Idle              // at the wait for new tasks
    | Draining          // running the swapped-out tasks
    | Retrying(left: nat)   // one pass over the unfinished tasks
    | Reporting         // posting completion messages

  datatype Worker = Worker(
    todo: seq<Token>,           // shared, filled by contexts
    phase: WorkerPhase,
    local: seq<Token>,
    unfinished: seq<Token>,
    messages: seq<Token>,
    load: int)

  datatype State = State(contexts: map<ContextID, Context>, workers: seq<Worker>, nextContext: ContextID)

  datatype Step =
    | CreateContext(graph: Graph, initial: seq<TaskID>)
    | TestPending(c: ContextID)
    | PostTask(c: ContextID, w: nat)
    | DonePosting(c: ContextID)
    | SwapCompletions(c: ContextID)
    | ProcessCompletion(c: ContextID, released: seq<TaskID>)
    | DoneProcessing(c: ContextID)
    | DeleteContext(c: ContextID)
    | SwapTodo(w: nat)
    | RunLocal(w: nat, complete: bool)
    | DoneLocal(w: nat)
    | RunUnfinished(w: nat, complete: bool)
    | DoneRetrying(w: nat)
    | ReportOne(w: nat)
    | DoneReporting(w: nat)

  function PhaseOf(s: State, c: ContextID): ContextPhase
    requires c in s.contexts
  {
    s.contexts[c].phase
  }

  /** When the actor of a step can take it. A worker waits until its shared list is non-empty,
      a context until its completion queue is. */
  ghost predicate Enabled(s: State, step: Step) {
    match step
    case CreateContext(g, initial) => Closed(g) && NoDup(initial) && Range(initial) == Eligible(g, [])
    case TestPending(c) => c in s.contexts && PhaseOf(s, c) == Head
    case PostTask(c, w) => c in s.contexts && PhaseOf(s, c) == Posting && s.contexts[c].taskList != [] && w < |s.workers|
    case DonePosting(c) => c in s.contexts && PhaseOf(s, c) == Posting && s.contexts[c].taskList == []
    case SwapCompletions(c) => c in s.contexts && PhaseOf(s, c) == Waiting && s.contexts[c].completionQueue != []
    case ProcessCompletion(c, released) =>
      && c in s.contexts && PhaseOf(s, c) == Processing && s.contexts[c].local != []
      && Releases(s.contexts[c].graph, s.contexts[c].done, s.contexts[c].local[0], released)
    case DoneProcessing(c) => c in s.contexts && PhaseOf(s, c) == Processing && s.contexts[c].local == []
    case DeleteContext(c) => c in s.contexts && PhaseOf(s, c).Finished?
    case SwapTodo(w) => w < |s.workers| && s.workers[w].phase == Idle && s.workers[w].todo != []
    case RunLocal(w, _) => w < |s.workers| && s.workers[w].phase == Draining && s.workers[w].local != []
    case DoneLocal(w) => w < |s.workers| && s.workers[w].phase == Draining && s.workers[w].local == []
    case RunUnfinished(w, _) => w < |s.workers| && s.workers[w].phase.Retrying? && s.workers[w].phase.left > 0 && s.workers[w].unfinished != []
    case DoneRetrying(w) => w < |s.workers| && s.workers[w].phase == Retrying(0)
    case ReportOne(w) => w < |s.workers| && s.workers[w].phase == Reporting && s.workers[w].messages != []
    case DoneReporting(w) => w < |s.workers| && s.workers[w].phase == Reporting && s.workers[w].messages == []
  }

  function SetContext(s: State, c: ContextID, ctx: Context): State {
    s.(contexts := s.contexts[c := ctx])
  }

  function SetWorker(s: State, w: nat, worker: Worker): State
    requires w < |s.workers|
  {
    s.(workers := s.workers[w := worker])
  }

  /** The next task of the list was run once. */
  function RanLocal(worker: Worker, complete: bool): Worker
    requires worker.local != []
  {
    var rest := worker.(local := worker.local[1..]);
    if complete then rest.(messages := rest.messages + [worker.local[0]], load := rest.load - 1)
    else rest.(unfinished := rest.unfinished + [worker.local[0]])
  }

  /** The next unfinished task was run again. */
  function RanUnfinished(worker: Worker, complete: bool): Worker
    requires worker.unfinished != [] && worker.phase.Retrying? && worker.phase.left > 0
  {
    var rest := worker.(phase := Retrying(worker.phase.left - 1), unfinished := worker.unfinished[1..]);
    if complete then rest.(messages := rest.messages + [worker.unfinished[0]], load := rest.load - 1)
    else rest.(unfinished := rest.unfinished + [worker.unfinished[0]])
  }

  ghost function Apply(s: State, step: Step): State
    requires Enabled(s, step)
  {
    match step
    case CreateContext(g, initial) =>
      State(s.contexts[s.nextContext := Context(g, [], Head, |initial|, initial, [], [])], s.workers, s.nextContext + 1)
    case TestPending(c) =>
      var ctx := s.contexts[c];
      SetContext(s, c, ctx.(phase := if ctx.pending != 0 then Posting else Finished(!(|ctx.done| < |ctx.graph|))))
    case PostTask(c, w) =>
      var ctx, worker := s.contexts[c], s.workers[w];
      SetWorker(SetContext(s, c, ctx.(taskList := ctx.taskList[1..])), w,
                worker.(todo := worker.todo + [Token(c, ctx.taskList[0])], load := worker.load + 1))
    case DonePosting(c) => SetContext(s, c, s.contexts[c].(phase := Waiting))
    case SwapCompletions(c) =>
      var ctx := s.contexts[c];
      SetContext(s, c, ctx.(phase := Processing, local := ctx.completionQueue, completionQueue := [],
                            pending := ctx.pending - |ctx.completionQueue|))
    case ProcessCompletion(c, released) =>
      var ctx := s.contexts[c];
      SetContext(s, c, ctx.(done := ctx.done + [ctx.local[0]], local := ctx.local[1..], taskList := ctx.taskList + released))
    case DoneProcessing(c) =>
      var ctx := s.contexts[c];
      SetContext(s, c, ctx.(phase := Head, pending := ctx.pending + |ctx.taskList|))
    case DeleteContext(c) => s.(contexts := s.contexts - {c})
    case SwapTodo(w) =>
      var worker := s.workers[w];
      SetWorker(s, w, worker.(phase := Draining, local := worker.todo, todo := []))
    case RunLocal(w, complete) => SetWorker(s, w, RanLocal(s.workers[w], complete))
    case DoneLocal(w) => SetWorker(s, w, s.workers[w].(phase := Retrying(|s.workers[w].unfinished|)))
    case RunUnfinished(w, complete) => SetWorker(s, w, RanUnfinished(s.workers[w], complete))
    case DoneRetrying(w) => SetWorker(s, w, s.workers[w].(phase := Reporting))
    case ReportOne(w) =>
      // a message whose context is no longer registered is dropped
      var worker := s.workers[w];
      var msg := worker.messages[0];
      var s' := SetWorker(s, w, worker.(messages := worker.messages[1..]));
      if msg.context in s.contexts then
        var ctx := s.contexts[msg.context];
        SetContext(s', msg.context, ctx.(completionQueue := ctx.completionQueue + [msg.task]))
      else s'
    case DoneReporting(w) => SetWorker(s, w, s.workers[w].(phase := Idle))
  }

  ghost predicate Initial(s: State) {
    && s.contexts == map[] && s.nextContext == 0
    && |s.workers| > 0 && forall w :: 0 <= w < |s.workers| ==> s.workers[w] == Worker([], Idle, [], [], [], 0)
  }

  ghost predicate Moves(s: State, step: Step, s': State) { Enabled(s, step) && s' == Apply(s, step) }

  ghost predicate Reachable(s: State) { Runs.Reachable(Initial, Moves, s) }

  // ----- where the tasks of a context are -----

  ghost function Count<T>(q: seq<T>, x: T): nat {
    if q == [] then 0 else (if q[0] == x then 1 else 0) + Count(q[1..], x)
  }

  ghost function HeldBy(worker: Worker, p: Token): nat {
    Count(worker.todo, p) + Count(worker.local, p) + Count(worker.unfinished, p) + Count(worker.messages, p)
  }

  ghost function AtWorkers(workers: seq<Worker>, p: Token): nat {
    if workers == [] then 0 else HeldBy(workers[0], p) + AtWorkers(workers[1..], p)
  }

  ghost function AtContext(ctx: Context, t: TaskID): nat {
    Count(ctx.taskList, t) + Count(ctx.completionQueue, t) + Count(ctx.local, t)
  }

  /** Handed out by the context's graph and not yet fed back to it as completed. */
  ghost function Outstanding(ctx: Context): set<TaskID> {
    Eligible(ctx.graph, ctx.done) - Range(ctx.done)
  }

  /** How many copies of a task are anywhere in the system. */
  ghost function Copies(s: State, c: ContextID, t: TaskID): nat {
    AtWorkers(s.workers, Token(c, t)) + if c in s.contexts then AtContext(s.contexts[c], t) else 0
  }

  ghost function Expected(s: State, c: ContextID, t: TaskID): nat {
    if c in s.contexts && t in Outstanding(s.contexts[c]) then 1 else 0
  }

  /** No task is lost, duplicated or invented. */
  ghost predicate Conserved(s: State) {
    forall c: ContextID, t: TaskID {:trigger Copies(s, c, t)} :: Copies(s, c, t) == Expected(s, c, t)
  }

  ghost predicate ContextOk(ctx: Context) {
    && Closed(ctx.graph) && TopoOrder(ctx.graph, ctx.done)
    && match ctx.phase
       case Head => ctx.local == [] && ctx.pending == |Outstanding(ctx)|
       case Posting => ctx.local == [] && ctx.pending == |Outstanding(ctx)| != 0
       case Waiting => ctx.local == [] && ctx.taskList == [] && ctx.pending == |Outstanding(ctx)| != 0
       case Processing => ctx.pending == |Outstanding(ctx)| - |ctx.local| - |ctx.taskList|
       case Finished(complete) => Outstanding(ctx) == {} && complete == !(|ctx.done| < |ctx.graph|)
  }

  ghost predicate WorkerOk(worker: Worker) {
    && worker.load == |worker.todo| + |worker.local| + |worker.unfinished|
    && match worker.phase
       case Idle => worker.local == [] && worker.messages == []
       case Draining => true
       case Retrying(left) => worker.local == [] && left <= |worker.unfinished|
       case Reporting => worker.local == []
  }

  ghost predicate Inv(s: State) {
    ActorsOk(s) && Conserved(s)
  }

  // ----- moving tokens about -----

  lemma CountAppend<T>(q: seq<T>, r: seq<T>, x: T)
    ensures Count(q + r, x) == Count(q, x) + Count(r, x)
  {
    if q == [] {
      assert q + r == r;
    } else {
      assert (q + r)[1..] == q[1..] + r;
    }
  }

  lemma CountIn<T>(q: seq<T>, x: T)
    ensures Count(q, x) > 0 <==> x in q
  {
  }

  ghost function HeadOf(q: seq<TaskID>): TaskID {
    if q == [] then 0 else q[0]
  }

  lemma HeadCounts(q: seq<TaskID>)
    ensures q == [] <==> Count(q, HeadOf(q)) == 0
  {
  }

  lemma NoDupCount(q: seq<TaskID>, t: TaskID)
    requires NoDup(q)
    ensures Count(q, t) == if t in Range(q) then 1 else 0
  {
    if q != [] {
      NoDupCount(q[1..], t);
      assert t in q <==> t == q[0] || t in q[1..];
      assert q[0] !in q[1..];
    }
  }

  lemma AtWorkersUpdate(ws: seq<Worker>, w: nat, x: Worker, p: Token)
    requires w < |ws|
    ensures AtWorkers(ws[w := x], p) + HeldBy(ws[w], p) == AtWorkers(ws, p) + HeldBy(x, p)
    ensures HeldBy(ws[w], p) <= AtWorkers(ws, p)
  {
    if w == 0 {
      assert ws[0 := x][1..] == ws[1..];
    } else {
      AtWorkersUpdate(ws[1..], w - 1, x, p);
      assert ws[w := x][1..] == ws[1..][w - 1 := x];
    }
  }

  ghost predicate ActorsOk(s: State) {
    && |s.workers| > 0
    && (forall c {:trigger ContextOk(s.contexts[c])} :: c in s.contexts ==> c < s.nextContext && ContextOk(s.contexts[c]))
    && (forall w {:trigger WorkerOk(s.workers[w])} :: 0 <= w < |s.workers| ==> WorkerOk(s.workers[w]))
  }

  lemma ActorsKept(s: State, c: ContextID, ctx: Context, w: nat, worker: Worker)
    requires ActorsOk(s) && c in s.contexts && w < |s.workers|
    requires ContextOk(ctx) && WorkerOk(worker)
    ensures ActorsOk(SetWorker(SetContext(s, c, ctx), w, worker))
  {
    var s' := SetWorker(SetContext(s, c, ctx), w, worker);
    forall v | 0 <= v < |s'.workers| ensures WorkerOk(s'.workers[v]) {
      assert v != w ==> WorkerOk(s.workers[v]);
    }
    assert ContextOk(s.contexts[c]);
    forall d | d in s'.contexts ensures d < s'.nextContext && ContextOk(s'.contexts[d]) {
      assert d != c ==> ContextOk(s.contexts[d]);
    }
  }

  lemma WorkerKept(s: State, w: nat, worker: Worker)
    requires ActorsOk(s) && w < |s.workers| && WorkerOk(worker)
    ensures ActorsOk(SetWorker(s, w, worker))
  {
    var s' := SetWorker(s, w, worker);
    forall v | 0 <= v < |s'.workers| ensures WorkerOk(s'.workers[v]) {
      assert v != w ==> WorkerOk(s.workers[v]);
    }
    forall d | d in s'.contexts ensures d < s'.nextContext && ContextOk(s'.contexts[d]) {
      assert ContextOk(s.contexts[d]);
    }
  }

  lemma ContextKept(s: State, c: ContextID, ctx: Context)
    requires ActorsOk(s) && c in s.contexts && ContextOk(ctx)
    ensures ActorsOk(SetContext(s, c, ctx))
  {
    assert WorkerOk(s.workers[0]);
    ActorsKept(s, c, ctx, 0, s.workers[0]);
    assert SetWorker(SetContext(s, c, ctx), 0, s.workers[0]) == SetContext(s, c, ctx);
  }

  /** A private step of a worker. */
  lemma WorkerStepKeeps(s: State, w: nat, x: Worker)
    requires Inv(s) && w < |s.workers| && WorkerOk(x)
    requires forall p {:trigger HeldBy(x, p)} :: HeldBy(x, p) == HeldBy(s.workers[w], p)
    ensures Inv(SetWorker(s, w, x))
  {
    var s' := SetWorker(s, w, x);
    WorkerKept(s, w, x);
    forall c: ContextID, t: TaskID ensures Copies(s', c, t) == Expected(s', c, t) {
      assert Copies(s, c, t) == Expected(s, c, t);
      AtWorkersUpdate(s.workers, w, x, Token(c, t));
    }
  }

  /** A private step of a context. */
  lemma ContextStepKeeps(s: State, c: ContextID, x: Context)
    requires Inv(s) && c in s.contexts && ContextOk(x)
    requires Outstanding(x) == Outstanding(s.contexts[c])
    requires forall t {:trigger AtContext(x, t)} :: AtContext(x, t) == AtContext(s.contexts[c], t)
    ensures Inv(SetContext(s, c, x))
  {
    var s' := SetContext(s, c, x);
    ContextKept(s, c, x);
    forall d: ContextID, t: TaskID ensures Copies(s', d, t) == Expected(s', d, t) {
      assert Copies(s, d, t) == Expected(s, d, t);
    }
  }

  /** Task p moves between its context and worker w. */
  lemma TransferKeeps(s: State, p: Token, ctx: Context, w: nat, x: Worker, toWorker: bool)
    requires Inv(s) && p.context in s.contexts && w < |s.workers| && ContextOk(ctx) && WorkerOk(x)
    requires Outstanding(ctx) == Outstanding(s.contexts[p.context])
    requires forall q {:trigger HeldBy(x, q)} ::
      HeldBy(x, q) + (if q == p && !toWorker then 1 else 0) == HeldBy(s.workers[w], q) + (if q == p && toWorker then 1 else 0)
    requires forall t {:trigger AtContext(ctx, t)} ::
      AtContext(ctx, t) + (if t == p.task && toWorker then 1 else 0)
        == AtContext(s.contexts[p.context], t) + (if t == p.task && !toWorker then 1 else 0)
    ensures Inv(SetWorker(SetContext(s, p.context, ctx), w, x))
  {
    var s' := SetWorker(SetContext(s, p.context, ctx), w, x);
    ActorsKept(s, p.context, ctx, w, x);
    forall d: ContextID, t: TaskID ensures Copies(s', d, t) == Expected(s', d, t) {
      assert Copies(s, d, t) == Expected(s, d, t);
      SameExpected(s, p.context, ctx, w, x, d, t);
      SameCopies(s, p.context, ctx, w, x, d, t);
    }
  }

  /** What one context and one worker hold together decides the number of copies. */
  lemma SameCopies(s: State, c: ContextID, ctx: Context, w: nat, x: Worker, d: ContextID, t: TaskID)
    requires c in s.contexts && w < |s.workers|
    requires HeldBy(x, Token(d, t)) + (if d == c then AtContext(ctx, t) else 0)
          == HeldBy(s.workers[w], Token(d, t)) + (if d == c then AtContext(s.contexts[c], t) else 0)
    ensures Copies(SetWorker(SetContext(s, c, ctx), w, x), d, t) == Copies(s, d, t)
  {
    AtWorkersUpdate(s.workers, w, x, Token(d, t));
  }

  lemma SameExpected(s: State, c: ContextID, ctx: Context, w: nat, x: Worker, d: ContextID, t: TaskID)
    requires c in s.contexts && w < |s.workers| && Outstanding(ctx) == Outstanding(s.contexts[c])
    ensures Expected(SetWorker(SetContext(s, c, ctx), w, x), d, t) == Expected(s, d, t)
  {
  }

  lemma PostTaskKeeps(s: State, c: ContextID, w: nat)
    requires Inv(s) && Enabled(s, PostTask(c, w))
    ensures Inv(Apply(s, PostTask(c, w)))
  {
    var ctx, worker := s.contexts[c], s.workers[w];
    var p := Token(c, ctx.taskList[0]);
    var x := worker.(todo := worker.todo + [p], load := worker.load + 1);
    assert ContextOk(ctx) && WorkerOk(worker);
    forall q ensures HeldBy(x, q) == HeldBy(worker, q) + if q == p then 1 else 0 {
      CountAppend(worker.todo, [p], q);
    }
    TransferKeeps(s, p, ctx.(taskList := ctx.taskList[1..]), w, x, true);
  }

  /** Whatever a worker holds belongs to a registered context and is outstanding there. */
  lemma HeldIsOutstanding(s: State, w: nat, p: Token)
    requires Inv(s) && w < |s.workers| && HeldBy(s.workers[w], p) > 0
    ensures p.context in s.contexts && p.task in Outstanding(s.contexts[p.context])
    ensures HeldBy(s.workers[w], p) == 1
  {
    AtWorkersUpdate(s.workers, w, s.workers[w], p);
    assert Copies(s, p.context, p.task) == Expected(s, p.context, p.task);
  }

  /** A completion message always finds its context; none is ever dropped. */
  lemma MessageFindsContext(s: State, w: nat)
    requires Inv(s) && w < |s.workers| && s.workers[w].messages != []
    ensures s.workers[w].messages[0].context in s.contexts
  {
    HeldIsOutstanding(s, w, s.workers[w].messages[0]);
  }

  lemma ReportOneKeeps(s: State, w: nat)
    requires Inv(s) && Enabled(s, ReportOne(w))
    ensures Inv(Apply(s, ReportOne(w)))
  {
    var worker := s.workers[w];
    var msg := worker.messages[0];
    assert WorkerOk(worker);
    MessageFindsContext(s, w);
    var ctx := s.contexts[msg.context];
    assert ContextOk(ctx);
    var x := worker.(messages := worker.messages[1..]);
    var ctx' := ctx.(completionQueue := ctx.completionQueue + [msg.task]);
    forall t ensures AtContext(ctx', t) == AtContext(ctx, t) + if t == msg.task then 1 else 0 {
      CountAppend(ctx.completionQueue, [msg.task], t);
    }
    TransferKeeps(s, msg, ctx', w, x, false);
    assert Apply(s, ReportOne(w)) == SetWorker(SetContext(s, msg.context, ctx'), w, x);
  }

  lemma CompletionIsOutstanding(s: State, c: ContextID, t: TaskID)
    requires Inv(s) && c in s.contexts && AtContext(s.contexts[c], t) > 0
    ensures t in Outstanding(s.contexts[c]) && AtContext(s.contexts[c], t) == 1
  {
    assert Copies(s, c, t) == Expected(s, c, t);
  }

  /** Feeding a completion to the graph replaces t by what it releases. */
  lemma OutstandingAfter(g: Graph, done: seq<TaskID>, t: TaskID, released: seq<TaskID>)
    requires TopoOrder(g, done) && t in Eligible(g, done) && t !in done
    requires Releases(g, done, t, released)
    ensures TopoOrder(g, done + [t])
    ensures Range(released) !! Eligible(g, done) - Range(done)
    ensures Eligible(g, done + [t]) - Range(done + [t]) == (Eligible(g, done) - Range(done)) - {t} + Range(released)
  {
    AppendDone(g, done, t);
    RangeAppend(done, t);
    DoneIsEligible(g, done);
  }

  lemma DoneIsEligible(g: Graph, done: seq<TaskID>)
    requires TopoOrder(g, done)
    ensures Range(done) <= Eligible(g, done)
  {
    forall x | x in done ensures x in Eligible(g, done) {
      var i :| 0 <= i < |done| && done[i] == x;
      assert DepsBefore(g, done, i);
      assert forall y :: y in done[..i] ==> y in done;
    }
  }

  lemma ProcessedContext(ctx: Context, released: seq<TaskID>)
    requires ContextOk(ctx) && ctx.phase == Processing && ctx.local != []
    requires ctx.local[0] in Outstanding(ctx) && Releases(ctx.graph, ctx.done, ctx.local[0], released)
    ensures var x := ctx.(done := ctx.done + [ctx.local[0]], local := ctx.local[1..], taskList := ctx.taskList + released);
            && ContextOk(x)
            && Range(released) !! Outstanding(ctx)
            && Outstanding(x) == Outstanding(ctx) - {ctx.local[0]} + Range(released)
  {
    var x := ctx.(done := ctx.done + [ctx.local[0]], local := ctx.local[1..], taskList := ctx.taskList + released);
    OutstandingAfter(ctx.graph, ctx.done, ctx.local[0], released);
    RangeSize(released);
    assert |Outstanding(x)| == |Outstanding(ctx)| - 1 + |released|;
  }

  lemma ProcessCompletionKeeps(s: State, c: ContextID, released: seq<TaskID>)
    requires Inv(s) && Enabled(s, ProcessCompletion(c, released))
    ensures Inv(Apply(s, ProcessCompletion(c, released)))
  {
    var ctx := s.contexts[c];
    var t := ctx.local[0];
    var x := ctx.(done := ctx.done + [t], local := ctx.local[1..], taskList := ctx.taskList + released);
    var s' := SetContext(s, c, x);
    assert ContextOk(ctx);
    CompletionIsOutstanding(s, c, t);
    ProcessedContext(ctx, released);
    ContextKept(s, c, x);
    forall d: ContextID, u: TaskID ensures Copies(s', d, u) == Expected(s', d, u) {
      assert Copies(s, d, u) == Expected(s, d, u);
      if d == c { ProcessedCopies(ctx, x, released, u); }
    }
  }

  lemma ProcessedCopies(ctx: Context, x: Context, released: seq<TaskID>, u: TaskID)
    requires ctx.local != [] && NoDup(released)
    requires x.local == ctx.local[1..] && x.taskList == ctx.taskList + released && x.completionQueue == ctx.completionQueue
    ensures AtContext(x, u) == AtContext(ctx, u) - (if u == ctx.local[0] then 1 else 0) + (if u in Range(released) then 1 else 0)
  {
    NoDupCount(released, u);
    CountAppend(ctx.taskList, released, u);
  }

  lemma FreshContextID(s: State)
    requires ActorsOk(s)
    ensures s.nextContext !in s.contexts
  {
    forall d | d in s.contexts ensures d < s.nextContext {
      assert ContextOk(s.contexts[d]);
    }
  }

  lemma CreateContextKeeps(s: State, g: Graph, initial: seq<TaskID>)
    requires Inv(s) && Enabled(s, CreateContext(g, initial))
    ensures Inv(Apply(s, CreateContext(g, initial)))
  {
    var s' := Apply(s, CreateContext(g, initial));
    var c := s.nextContext;
    var ctx := Context(g, [], Head, |initial|, initial, [], []);
    FreshContextID(s);
    RangeSize(initial);
    assert Outstanding(ctx) == Range(initial);
    assert ContextOk(ctx);
    forall d: ContextID, t: TaskID ensures Copies(s', d, t) == Expected(s', d, t) {
      assert Copies(s, d, t) == Expected(s, d, t);
      NoDupCount(initial, t);
    }
    forall d | d in s'.contexts ensures d < s'.nextContext && ContextOk(s'.contexts[d]) {
      assert d != c ==> ContextOk(s.contexts[d]);
    }
    forall w | 0 <= w < |s'.workers| ensures WorkerOk(s'.workers[w]) {
      assert WorkerOk(s.workers[w]);
    }
  }

  /** When a finished context goes away, no worker, message or queue still refers to it. */
  lemma NothingLeftAtDeletion(s: State, c: ContextID)
    requires Inv(s) && Enabled(s, DeleteContext(c))
    ensures forall t {:trigger Token(c, t)} :: AtWorkers(s.workers, Token(c, t)) == 0
    ensures s.contexts[c].taskList == [] && s.contexts[c].completionQueue == [] && s.contexts[c].local == []
  {
    var ctx := s.contexts[c];
    assert ContextOk(ctx);
    forall t: TaskID ensures AtWorkers(s.workers, Token(c, t)) == 0 && AtContext(ctx, t) == 0 {
      assert Copies(s, c, t) == Expected(s, c, t);
    }
    HeadCounts(ctx.taskList);
    HeadCounts(ctx.completionQueue);
    HeadCounts(ctx.local);
    assert AtContext(ctx, HeadOf(ctx.taskList)) == AtContext(ctx, HeadOf(ctx.completionQueue)) == AtContext(ctx, HeadOf(ctx.local)) == 0;
  }

  lemma DeleteContextKeeps(s: State, c: ContextID)
    requires Inv(s) && Enabled(s, DeleteContext(c))
    ensures Inv(Apply(s, DeleteContext(c)))
  {
    var s' := Apply(s, DeleteContext(c));
    NothingLeftAtDeletion(s, c);
    forall d: ContextID, t: TaskID ensures Copies(s', d, t) == Expected(s', d, t) {
      assert Copies(s, d, t) == Expected(s, d, t);
      assert AtWorkers(s.workers, Token(c, t)) == 0;
    }
    forall d | d in s'.contexts ensures d < s'.nextContext && ContextOk(s'.contexts[d]) {
      assert ContextOk(s.contexts[d]);
    }
    forall w | 0 <= w < |s'.workers| ensures WorkerOk(s'.workers[w]) {
      assert WorkerOk(s.workers[w]);
    }
  }

  lemma ContextPrivateKeeps(s: State, step: Step)
    requires Inv(s) && Enabled(s, step)
    requires step.TestPending? || step.DonePosting? || step.SwapCompletions? || step.DoneProcessing?
    ensures Inv(Apply(s, step))
  {
    assert ContextOk(s.contexts[step.c]);
    var s' := Apply(s, step);
    ContextStepKeeps(s, step.c, s'.contexts[step.c]);
  }

  lemma RunLocalKeeps(s: State, w: nat, complete: bool)
    requires Inv(s) && Enabled(s, RunLocal(w, complete))
    ensures Inv(Apply(s, RunLocal(w, complete)))
  {
    var worker := s.workers[w];
    assert WorkerOk(worker);
    var x := Apply(s, RunLocal(w, complete)).workers[w];
    forall p ensures HeldBy(x, p) == HeldBy(worker, p) {
      CountAppend(worker.messages, [worker.local[0]], p);
      CountAppend(worker.unfinished, [worker.local[0]], p);
    }
    WorkerStepKeeps(s, w, x);
  }

  lemma RunUnfinishedKeeps(s: State, w: nat, complete: bool)
    requires Inv(s) && Enabled(s, RunUnfinished(w, complete))
    ensures Inv(Apply(s, RunUnfinished(w, complete)))
  {
    var worker := s.workers[w];
    assert WorkerOk(worker);
    var x := Apply(s, RunUnfinished(w, complete)).workers[w];
    forall p ensures HeldBy(x, p) == HeldBy(worker, p) {
      CountAppend(worker.messages, [worker.unfinished[0]], p);
      CountAppend(worker.unfinished[1..], [worker.unfinished[0]], p);
    }
    WorkerStepKeeps(s, w, x);
  }

  lemma WorkerPrivateKeeps(s: State, step: Step)
    requires Inv(s) && Enabled(s, step)
    requires step.SwapTodo? || step.DoneLocal? || step.DoneRetrying? || step.DoneReporting?
    ensures Inv(Apply(s, step))
  {
    assert WorkerOk(s.workers[step.w]);
    var s' := Apply(s, step);
    WorkerStepKeeps(s, step.w, s'.workers[step.w]);
  }

  lemma StepKeepsInv(s: State, step: Step)
    requires Inv(s) && Enabled(s, step)
    ensures Inv(Apply(s, step))
  {
    match step
    case CreateContext(g, initial) => CreateContextKeeps(s, g, initial);
    case PostTask(c, w) => PostTaskKeeps(s, c, w);
    case ProcessCompletion(c, released) => ProcessCompletionKeeps(s, c, released);
    case DeleteContext(c) => DeleteContextKeeps(s, c);
    case ReportOne(w) => ReportOneKeeps(s, w);
    case TestPending(c) => ContextPrivateKeeps(s, step);
    case DonePosting(c) => ContextPrivateKeeps(s, step);
    case SwapCompletions(c) => ContextPrivateKeeps(s, step);
    case DoneProcessing(c) => ContextPrivateKeeps(s, step);
    case RunLocal(w, complete) => RunLocalKeeps(s, w, complete);
    case RunUnfinished(w, complete) => RunUnfinishedKeeps(s, w, complete);
    case _ => WorkerPrivateKeeps(s, step);
  }

  lemma InitialInv(s: State)
    requires Initial(s)
    ensures Inv(s)
  {
    forall w | 0 <= w < |s.workers| ensures WorkerOk(s.workers[w]) { }
    forall c: ContextID, t: TaskID ensures Copies(s, c, t) == Expected(s, c, t) {
      NoWorkerHolds(s.workers, Token(c, t));
    }
  }

  lemma NoWorkerHolds(ws: seq<Worker>, p: Token)
    requires forall w :: 0 <= w < |ws| ==> ws[w] == Worker([], Idle, [], [], [], 0)
    ensures AtWorkers(ws, p) == 0
  {
  }

  /** Every state of every run is consistent. */
  lemma ReachableInv(s: State)
    requires Reachable(s)
    ensures Inv(s)
  {
    forall s | Initial(s) ensures Inv(s) {
      InitialInv(s);
    }
    forall s: State, step: Step, s': State | Inv(s) && Moves(s, step, s') ensures Inv(s') {
      StepKeepsInv(s, step);
    }
    Runs.ReachableKeeps(Initial, Moves, Inv, s);
  }

  // ----- what a caller of ExecuteGraph can rely on -----

  /** In every run, a call that returns reports completion iff its graph is acyclic, and it
      has run, once each and dependencies first, exactly the tasks that reach no cycle. */
  lemma VerdictInEveryRun(s: State, c: ContextID)
    requires Reachable(s)
    requires c in s.contexts && s.contexts[c].phase.Finished?
    ensures var ctx := s.contexts[c];
            && (ctx.phase.complete <==> Acyclic(ctx.graph))
            && TopoOrder(ctx.graph, ctx.done)
            && forall v :: v in ctx.graph ==> (v in ctx.done <==> !Blocked(ctx.graph, v))
  {
    ReachableInv(s);
    var ctx := s.contexts[c];
    assert ContextOk(ctx);
    DoneIsEligible(ctx.graph, ctx.done);
    forall v | v in Eligible(ctx.graph, ctx.done) ensures v in Range(ctx.done) {
      assert v !in Outstanding(ctx);
    }
    QuiescentIsExhausted(ctx.graph, ctx.done);
    ExhaustedOrderIsExact(ctx.graph, ctx.done);
    ExhaustedIsCompleteIffAcyclic(ctx.graph, ctx.done);
    DoneFits(ctx.graph, ctx.done);
  }

  /** Nobody can move: only a new ExecuteGraph call could change anything. */
  ghost predicate Stuck(s: State) {
    forall step :: Enabled(s, step) ==> step.CreateContext?
  }

  ghost predicate EveryoneWaits(s: State) {
    && (forall c {:trigger s.contexts[c]} :: c in s.contexts ==> s.contexts[c].phase == Waiting && s.contexts[c].completionQueue == [])
    && (forall w {:trigger s.workers[w]} :: 0 <= w < |s.workers| ==> s.workers[w].phase == Idle && s.workers[w].todo == [])
  }

  lemma StuckContextWaits(s: State, c: ContextID)
    requires Inv(s) && Stuck(s) && c in s.contexts
    ensures s.contexts[c].phase == Waiting && s.contexts[c].completionQueue == []
  {
    var ctx := s.contexts[c];
    assert !Enabled(s, TestPending(c)) && !Enabled(s, PostTask(c, 0)) && !Enabled(s, DonePosting(c));
    assert !Enabled(s, SwapCompletions(c)) && !Enabled(s, DoneProcessing(c)) && !Enabled(s, DeleteContext(c));
    if ctx.phase == Processing {
      var released := ListSet(Eligible(ctx.graph, ctx.done + [ctx.local[0]]) - Eligible(ctx.graph, ctx.done));
      assert Enabled(s, ProcessCompletion(c, released));
    }
  }

  lemma StuckWorkerIdles(s: State, w: nat)
    requires Inv(s) && Stuck(s) && w < |s.workers|
    ensures s.workers[w].phase == Idle && s.workers[w].todo == []
  {
    assert WorkerOk(s.workers[w]);
    assert !Enabled(s, SwapTodo(w)) && !Enabled(s, RunLocal(w, true)) && !Enabled(s, DoneLocal(w));
    assert !Enabled(s, RunUnfinished(w, true)) && !Enabled(s, DoneRetrying(w));
    assert !Enabled(s, ReportOne(w)) && !Enabled(s, DoneReporting(w));
  }

  /** The system is stuck exactly when every call waits on an empty completion queue and
      every worker waits on an empty list. */
  lemma StuckIffEveryoneWaits(s: State)
    requires Inv(s)
    ensures Stuck(s) <==> EveryoneWaits(s)
  {
    if Stuck(s) {
      forall c | c in s.contexts ensures s.contexts[c].phase == Waiting && s.contexts[c].completionQueue == [] {
        StuckContextWaits(s, c);
      }
      forall w | 0 <= w < |s.workers| ensures s.workers[w].phase == Idle && s.workers[w].todo == [] {
        StuckWorkerIdles(s, w);
      }
    }
  }

  lemma SomeWorkerHolds(ws: seq<Worker>, p: Token) returns (w: nat)
    requires AtWorkers(ws, p) > 0
    ensures w < |ws| && HeldBy(ws[w], p) > 0
  {
    if HeldBy(ws[0], p) > 0 {
      w := 0;
    } else {
      w := SomeWorkerHolds(ws[1..], p);
      w := w + 1;
    }
  }

  /** When the system is stuck, every outstanding task of every call sits in the unfinished
      list of a worker that sleeps on it. */
  lemma StuckOnlyOnUnfinished(s: State, c: ContextID, t: TaskID) returns (w: nat)
    requires Inv(s) && Stuck(s)
    requires c in s.contexts && t in Outstanding(s.contexts[c])
    ensures w < |s.workers| && s.workers[w].phase == Idle && Token(c, t) in s.workers[w].unfinished
  {
    assert Copies(s, c, t) == Expected(s, c, t);
    StuckContextWaits(s, c);
    assert ContextOk(s.contexts[c]);
    w := SomeWorkerHolds(s.workers, Token(c, t));
    StuckWorkerIdles(s, w);
    assert WorkerOk(s.workers[w]);
    CountIn(s.workers[w].unfinished, Token(c, t));
  }

  /** Deadlock freedom: while no idle worker keeps an unfinished task, a pending call can move. */
  lemma NoStuckWithoutUnfinished(s: State)
    requires Inv(s) && s.contexts != map[]
    requires forall w :: 0 <= w < |s.workers| && s.workers[w].phase == Idle ==> s.workers[w].unfinished == []
    ensures !Stuck(s)
  {
    if Stuck(s) {
      var c :| c in s.contexts;
      StuckContextWaits(s, c);
      assert ContextOk(s.contexts[c]);
      var t :| t in Outstanding(s.contexts[c]);
      var w := StuckOnlyOnUnfinished(s, c, t);
    }
  }

  const OneTask: Graph := map[0 := {}]

  /** One worker and one call on the graph OneTask. */
  function Scene(phase: ContextPhase, taskList: seq<TaskID>, worker: Worker): State {
    State(map[0 := Context(OneTask, [], phase, 1, taskList, [], [])], [worker], 1)
  }

  const Asleep := Worker([], Idle, [], [], [], 0)

  function Busy(phase: WorkerPhase, local: seq<Token>, unfinished: seq<Token>): Worker {
    Worker([], phase, local, unfinished, [], 1)
  }

  lemma CallIsCreated()
    ensures Reachable(Scene(Head, [0], Asleep))
  {
    var s := State(map[], [Asleep], 0);
    Runs.InitialIsReachable<State, Step>(Initial, Moves, s);
    assert Range<TaskID>([0]) == {0} == Eligible(OneTask, []);
    Runs.NextIsReachable(Initial, Moves, s, CreateContext(OneTask, [0]), Scene(Head, [0], Asleep));
  }

  lemma CallPostsItsTask()
    ensures Reachable(Scene(Waiting, [], Worker([Token(0, 0)], Idle, [], [], [], 1)))
  {
    CallIsCreated();
    var holding := Worker([Token(0, 0)], Idle, [], [], [], 1);
    Runs.NextIsReachable(Initial, Moves, Scene(Head, [0], Asleep), TestPending(0), Scene(Posting, [0], Asleep));
    assert [] + [Token(0, 0)] == [Token(0, 0)] && [0][1..] == [];
    assert Apply(Scene(Posting, [0], Asleep), PostTask(0, 0)).contexts == Scene(Posting, [], holding).contexts;
    Runs.NextIsReachable(Initial, Moves, Scene(Posting, [0], Asleep), PostTask(0, 0), Scene(Posting, [], holding));
    Runs.NextIsReachable(Initial, Moves, Scene(Posting, [], holding), DonePosting(0), Scene(Waiting, [], holding));
  }

  lemma WorkerTriesOnce()
    ensures Reachable(Scene(Waiting, [], Busy(Draining, [], [Token(0, 0)])))
  {
    CallPostsItsTask();
    var holding := Worker([Token(0, 0)], Idle, [], [], [], 1);
    Runs.NextIsReachable(Initial, Moves, Scene(Waiting, [], holding), SwapTodo(0), Scene(Waiting, [], Busy(Draining, [Token(0, 0)], [])));
    assert [] + [Token(0, 0)] == [Token(0, 0)] && [Token(0, 0)][1..] == [];
    Runs.NextIsReachable(Initial, Moves, Scene(Waiting, [], Busy(Draining, [Token(0, 0)], [])), RunLocal(0, false),
                  Scene(Waiting, [], Busy(Draining, [], [Token(0, 0)])));
  }

  lemma WorkerTriesTwice()
    ensures Reachable(Scene(Waiting, [], Busy(Idle, [], [Token(0, 0)])))
  {
    WorkerTriesOnce();
    var q := [Token(0, 0)];
    Runs.NextIsReachable(Initial, Moves, Scene(Waiting, [], Busy(Draining, [], q)), DoneLocal(0), Scene(Waiting, [], Busy(Retrying(1), [], q)));
    assert q[1..] + [Token(0, 0)] == q;
    Runs.NextIsReachable(Initial, Moves, Scene(Waiting, [], Busy(Retrying(1), [], q)), RunUnfinished(0, false), Scene(Waiting, [], Busy(Retrying(0), [], q)));
    Runs.NextIsReachable(Initial, Moves, Scene(Waiting, [], Busy(Retrying(0), [], q)), DoneRetrying(0), Scene(Waiting, [], Busy(Reporting, [], q)));
    Runs.NextIsReachable(Initial, Moves, Scene(Waiting, [], Busy(Reporting, [], q)), DoneReporting(0), Scene(Waiting, [], Busy(Idle, [], q)));
  }

  /** One worker, one task without dependencies that answers Continue twice: the worker keeps
      it in its unfinished list and sleeps, and the call that posted it waits for ever. */
  lemma WorkerSleepsOnUnfinished() returns (s: State)
    ensures Reachable(s) && Stuck(s) && s.contexts != map[]
  {
    WorkerTriesTwice();
    s := Scene(Waiting, [], Busy(Idle, [], [Token(0, 0)]));
    ReachableInv(s);
    StuckIffEveryoneWaits(s);
    assert 0 in s.contexts;
  }
}
