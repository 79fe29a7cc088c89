/** AsyncTasks/AsyncExecutor: a worker's loop as it runs, and the steps of the protocol it
    amounts to. */
module ExecutorWorker {
  import Runs
  import opened ExecutorProtocol

  /** What the n-th call of a task's Run answers: complete or not. */
  type Answers = nat -> bool

  // ----- one pass, on values -----

  function Drained(worker: Worker, answer: Answers, n: nat): Worker
    decreases |worker.local|
  {
    if worker.local == [] then worker else Drained(RanLocal(worker, answer(n)), answer, n + 1)
  }

  function Retried(worker: Worker, answer: Answers, n: nat): Worker
    requires worker.phase.Retrying? && worker.phase.left <= |worker.unfinished|
    decreases worker.phase.left
  {
    if worker.phase.left == 0 then worker else Retried(RanUnfinished(worker, answer(n)), answer, n + 1)
  }

  /** Take the list, run everything on it once, everything unfinished once more, and report. */
  function Passed(worker: Worker, answer: Answers): Worker {
    var drained := Drained(worker.(phase := Draining, local := worker.todo, todo := []), answer, 0);
    Retried(drained.(phase := Retrying(|drained.unfinished|)), answer, |worker.todo|).(phase := Reporting)
  }

  // ----- who is run, and what becomes of it -----

  /** Of the tasks u, run once each from the n-th call on, those that answered so. */
  function Answered(u: seq<Token>, answer: Answers, n: nat, complete: bool): seq<Token> {
    if u == [] then [] else (if answer(n) == complete then [u[0]] else []) + Answered(u[1..], answer, n + 1, complete)
  }

  /** How many of the k answers from the n-th on are of that kind. */
  function AnswersOf(answer: Answers, n: nat, k: nat, complete: bool): nat {
    if k == 0 then 0 else AnswersOf(answer, n, k - 1, complete) + if answer(n + k - 1) == complete then 1 else 0
  }

  lemma {:induction false} AnswersFromNext(answer: Answers, n: nat, k: nat, complete: bool)
    requires k > 0
    ensures AnswersOf(answer, n, k, complete) == (if answer(n) == complete then 1 else 0) + AnswersOf(answer, n + 1, k - 1, complete)
  {
    if k > 1 {
      AnswersFromNext(answer, n, k - 1, complete);
    }
  }

  /** Each task is among those that answered as it did, in the place its answer has among
      theirs. */
  lemma {:induction false} AnsweredAt(u: seq<Token>, answer: Answers, n: nat, k: nat, complete: bool)
    requires k < |u| && answer(n + k) == complete
    ensures var i := AnswersOf(answer, n, k, complete);
            i < |Answered(u, answer, n, complete)| && Answered(u, answer, n, complete)[i] == u[k]
    decreases |u|
  {
    var rest := Answered(u[1..], answer, n + 1, complete);
    var first := if answer(n) == complete then [u[0]] else [];
    assert Answered(u, answer, n, complete) == first + rest;
    if k > 0 {
      assert n + 1 + (k - 1) == n + k;
      AnsweredAt(u[1..], answer, n + 1, k - 1, complete);
      AnswersFromNext(answer, n, k, complete);
    }
  }

  /** And there are no others. */
  lemma {:induction false} AnsweredSplits(u: seq<Token>, answer: Answers, n: nat)
    ensures |Answered(u, answer, n, true)| + |Answered(u, answer, n, false)| == |u|
  {
    if u != [] {
      AnsweredSplits(u[1..], answer, n + 1);
    }
  }

  lemma AnsweredFirst(before: seq<Token>, u: seq<Token>, answer: Answers, n: nat, complete: bool)
    requires u != []
    ensures before + Answered(u, answer, n, complete) ==
              (if answer(n) == complete then before + [u[0]] else before) + Answered(u[1..], answer, n + 1, complete)
  {
  }

  lemma {:induction false} DrainedIs(worker: Worker, answer: Answers, n: nat)
    ensures var d, u := Drained(worker, answer, n), worker.local;
            && d.messages == worker.messages + Answered(u, answer, n, true) && d.unfinished == worker.unfinished + Answered(u, answer, n, false)
            && d.load == worker.load - |Answered(u, answer, n, true)|
            && d.local == [] && d.todo == worker.todo && d.phase == worker.phase
    decreases |worker.local|
  {
    if worker.local != [] {
      DrainedIs(RanLocal(worker, answer(n)), answer, n + 1);
      AnsweredFirst(worker.messages, worker.local, answer, n, true);
      AnsweredFirst(worker.unfinished, worker.local, answer, n, false);
    }
  }

  lemma {:induction false} RetriedIs(worker: Worker, answer: Answers, n: nat)
    requires worker.phase.Retrying? && worker.phase.left <= |worker.unfinished|
    ensures var r, u := Retried(worker, answer, n), worker.unfinished[..worker.phase.left];
            && r.messages == worker.messages + Answered(u, answer, n, true)
            && r.unfinished == worker.unfinished[worker.phase.left..] + Answered(u, answer, n, false)
            && r.load == worker.load - |Answered(u, answer, n, true)|
            && r.local == worker.local && r.todo == worker.todo && r.phase == Retrying(0)
    decreases worker.phase.left
  {
    if worker.phase.left > 0 {
      var left := worker.phase.left;
      RetriedIs(RanUnfinished(worker, answer(n)), answer, n + 1);
      FrontGoesBack(worker.unfinished, left, answer(n));
      AnsweredFirst(worker.messages, worker.unfinished[..left], answer, n, true);
      AnsweredFirst(worker.unfinished[left..], worker.unfinished[..left], answer, n, false);
    }
  }

  lemma FrontGoesBack(q: seq<Token>, left: nat, complete: bool)
    requires 0 < left <= |q|
    ensures var rest := if complete then q[1..] else q[1..] + [q[0]];
            && rest[..left - 1] == q[..left][1..]
            && rest[left - 1..] == (if complete then q[left..] else q[left..] + [q[..left][0]])
  {
  }

  lemma WholeIsRetried(worker: Worker, answer: Answers, n: nat)
    requires worker.phase == Retrying(|worker.unfinished|)
    ensures var r, u := Retried(worker, answer, n), worker.unfinished;
            && r.messages == worker.messages + Answered(u, answer, n, true) && r.unfinished == Answered(u, answer, n, false)
            && r.load == worker.load - |Answered(u, answer, n, true)| && r.local == worker.local && r.todo == worker.todo
  {
    RetriedIs(worker, answer, n);
    assert worker.unfinished[..|worker.unfinished|] == worker.unfinished && worker.unfinished[|worker.unfinished|..] == [];
  }

  /** A pass runs every task of the list once, in order, and then every unfinished one once
      more, those kept from before first. What answers Complete is reported in the order of
      the calls; the rest stays, in that order. */
  lemma PassedIs(worker: Worker, answer: Answers)
    ensures var passed, t := Passed(worker, answer), worker.todo;
            var again := worker.unfinished + Answered(t, answer, 0, false);
            var reported := Answered(t, answer, 0, true) + Answered(again, answer, |t|, true);
            && passed.messages == worker.messages + reported && passed.unfinished == Answered(again, answer, |t|, false)
            && passed.load == worker.load - |reported| && passed.todo == [] && passed.local == []
  {
    var x := worker.(phase := Draining, local := worker.todo, todo := []);
    DrainedIs(x, answer, 0);
    var drained := Drained(x, answer, 0);
    WholeIsRetried(drained.(phase := Retrying(|drained.unfinished|)), answer, |worker.todo|);
  }

  // ----- the loop -----

  class TaskExecutorThread {
    var todoList: seq<Token>             // shared, filled by contexts
    var current: seq<Token>              // swapped out, being run
    var unfinishedBusiness: seq<Token>
    var completionMessages: seq<Token>
    var taskLoad: int
    ghost var phase: WorkerPhase

    ghost function Abstract(): Worker reads this {
      Worker(todoList, phase, current, unfinishedBusiness, completionMessages, taskLoad)
    }

    constructor ()
      ensures Abstract() == Worker([], Idle, [], [], [], 0)
    {
      todoList, current, unfinishedBusiness, completionMessages, taskLoad, phase := [], [], [], [], 0, Idle;
    }

    method PostTask(task: Token)
      modifies this`todoList, this`taskLoad
      ensures todoList == old(todoList) + [task] && taskLoad == old(taskLoad) + 1
    {
      todoList := todoList + [task];
      taskLoad := taskLoad + 1;
    }

    /** One round of the loop, up to the reporting. ran: whose Run was called, in order. */
    method Pass(answer: Answers) returns (ghost ran: seq<Token>)
      requires current == []
      modifies this
      ensures Abstract() == Passed(old(Abstract()), answer)
      ensures var t := old(todoList);
              var again := old(unfinishedBusiness) + Answered(t, answer, 0, false);
              var reported := Answered(t, answer, 0, true) + Answered(again, answer, |t|, true);
              && ran == t + again && completionMessages == old(completionMessages) + reported
              && unfinishedBusiness == Answered(again, answer, |t|, false)
              && taskLoad == old(taskLoad) - |reported| && todoList == [] && current == []
    {
      PassedIs(Abstract(), answer);
      var calls := |todoList|;
      todoList, current := current, todoList;
      phase := Draining;
      ran := RunTodo(answer);
      phase := Retrying(|unfinishedBusiness|);
      ghost var again := RetryUnfinished(answer, calls);
      phase := Reporting;
      ran := ran + again;
    }

    method RunTodo(answer: Answers) returns (ghost ran: seq<Token>)
      modifies this
      ensures Abstract() == Drained(old(Abstract()), answer, 0)
      ensures ran == old(current) && current == [] && todoList == old(todoList)
      ensures completionMessages == old(completionMessages) + Answered(old(current), answer, 0, true)
      ensures unfinishedBusiness == old(unfinishedBusiness) + Answered(old(current), answer, 0, false)
      ensures taskLoad == old(taskLoad) - |Answered(old(current), answer, 0, true)|
    {
      DrainedIs(Abstract(), answer, 0);
      var n := 0;
      ran := [];
      while current != []
        invariant Drained(Abstract(), answer, n) == Drained(old(Abstract()), answer, 0)
        invariant n <= |old(current)| && ran == old(current)[..n] && current == old(current)[n..]
        decreases |current|
      {
        var task := current[0];
        if answer(n) {
          completionMessages := completionMessages + [task];
          taskLoad := taskLoad - 1;
        } else {
          unfinishedBusiness := unfinishedBusiness + [task];
        }
        current := current[1..];
        ran := ran + [task];
        n := n + 1;
      }
    }

    /** Only as many as are unfinished now: each of them once. */
    method RetryUnfinished(answer: Answers, calls: nat) returns (ghost ran: seq<Token>)
      requires phase == Retrying(|unfinishedBusiness|)
      modifies this
      ensures Abstract() == Retried(old(Abstract()), answer, calls)
      ensures ran == old(unfinishedBusiness) && todoList == old(todoList) && current == old(current)
      ensures completionMessages == old(completionMessages) + Answered(old(unfinishedBusiness), answer, calls, true)
      ensures unfinishedBusiness == Answered(old(unfinishedBusiness), answer, calls, false)
      ensures taskLoad == old(taskLoad) - |Answered(old(unfinishedBusiness), answer, calls, true)|
    {
      WholeIsRetried(Abstract(), answer, calls);
      var numToProcess, numProcessed := |unfinishedBusiness|, 0;
      ran := [];
      while numProcessed < numToProcess
        invariant numProcessed <= numToProcess == |old(unfinishedBusiness)|
        invariant phase == Retrying(numToProcess - numProcessed) && numToProcess - numProcessed <= |unfinishedBusiness|
        invariant Retried(Abstract(), answer, calls + numProcessed) == Retried(old(Abstract()), answer, calls)
        invariant unfinishedBusiness[..numToProcess - numProcessed] == old(unfinishedBusiness)[numProcessed..]
        invariant ran == old(unfinishedBusiness)[..numProcessed]
      {
        ghost var left := unfinishedBusiness[..numToProcess - numProcessed];
        ran := ran + [unfinishedBusiness[0]];
        RetryOne(answer(calls + numProcessed));
        numProcessed := numProcessed + 1;
        assert unfinishedBusiness[..numToProcess - numProcessed] == left[1..];
      }
    }

    method RetryOne(complete: bool)
      requires unfinishedBusiness != [] && phase.Retrying? && phase.left > 0
      modifies this`unfinishedBusiness, this`completionMessages, this`taskLoad, this`phase
      ensures Abstract() == RanUnfinished(old(Abstract()), complete)
      ensures var task := old(unfinishedBusiness)[0];
              && unfinishedBusiness == old(unfinishedBusiness)[1..] + (if complete then [] else [task])
              && completionMessages == old(completionMessages) + (if complete then [task] else [])
    {
      var task := unfinishedBusiness[0];
      unfinishedBusiness := unfinishedBusiness[1..];
      if complete {
        completionMessages := completionMessages + [task];
        taskLoad := taskLoad - 1;
      } else {
        unfinishedBusiness := unfinishedBusiness + [task];
      }
      phase := Retrying(phase.left - 1);
    }
  }

  // ----- a pass is a run of the protocol -----

  lemma {:induction false} DrainIsReached(s: State, w: nat, answer: Answers, n: nat)
    requires Reachable(s) && w < |s.workers| && s.workers[w].phase == Draining
    ensures Reachable(SetWorker(s, w, Drained(s.workers[w], answer, n)))
    ensures var d := Drained(s.workers[w], answer, n); d.phase == Draining && d.local == [] && d.todo == s.workers[w].todo
    decreases |s.workers[w].local|
  {
    var worker := s.workers[w];
    if worker.local == [] {
      assert SetWorker(s, w, worker) == s;
    } else {
      var s' := SetWorker(s, w, RanLocal(worker, answer(n)));
      Runs.NextIsReachable(Initial, Moves, s, RunLocal(w, answer(n)), s');
      DrainIsReached(s', w, answer, n + 1);
      SetTwice(s, w, RanLocal(worker, answer(n)), Drained(worker, answer, n));
    }
  }

  lemma SetTwice(s: State, w: nat, x: Worker, y: Worker)
    requires w < |s.workers|
    ensures SetWorker(SetWorker(s, w, x), w, y) == SetWorker(s, w, y)
  {
    assert s.workers[w := x][w := y] == s.workers[w := y];
  }

  lemma {:induction false} RetryIsReached(s: State, w: nat, answer: Answers, n: nat)
    requires Reachable(s) && w < |s.workers| && s.workers[w].phase.Retrying? && s.workers[w].phase.left <= |s.workers[w].unfinished|
    ensures Reachable(SetWorker(s, w, Retried(s.workers[w], answer, n)))
    ensures var r := Retried(s.workers[w], answer, n);
            r.phase == Retrying(0) && r.local == s.workers[w].local && r.todo == s.workers[w].todo
    decreases s.workers[w].phase.left
  {
    var worker := s.workers[w];
    if worker.phase.left == 0 {
      assert SetWorker(s, w, worker) == s;
    } else {
      var s' := SetWorker(s, w, RanUnfinished(worker, answer(n)));
      Runs.NextIsReachable(Initial, Moves, s, RunUnfinished(w, answer(n)), s');
      RetryIsReached(s', w, answer, n + 1);
      SetTwice(s, w, RanUnfinished(worker, answer(n)), Retried(worker, answer, n));
    }
  }

  /** What a worker's pass makes of it, the steps of the protocol make of it too. */
  lemma PassIsReached(s: State, w: nat, answer: Answers)
    requires Reachable(s) && Enabled(s, SwapTodo(w))
    ensures Reachable(SetWorker(s, w, Passed(s.workers[w], answer)))
    ensures var passed := Passed(s.workers[w], answer); passed.phase == Reporting && passed.todo == [] && passed.local == []
  {
    var worker := s.workers[w];
    var x1 := worker.(phase := Draining, local := worker.todo, todo := []);
    var s1 := SetWorker(s, w, x1);
    Runs.NextIsReachable(Initial, Moves, s, SwapTodo(w), s1);
    DrainIsReached(s1, w, answer, 0);
    var x2 := Drained(x1, answer, 0);
    SetTwice(s, w, x1, x2);
    RetryingIsReached(s, w, x2, answer, |worker.todo|);
  }

  lemma RetryingIsReached(s: State, w: nat, x2: Worker, answer: Answers, n: nat)
    requires w < |s.workers| && Reachable(SetWorker(s, w, x2)) && x2.phase == Draining && x2.local == []
    ensures var passed := Retried(x2.(phase := Retrying(|x2.unfinished|)), answer, n).(phase := Reporting);
            && Reachable(SetWorker(s, w, passed)) && passed.local == [] && passed.todo == x2.todo
  {
    var x3 := x2.(phase := Retrying(|x2.unfinished|));
    SetTwice(s, w, x2, x3);
    Runs.NextIsReachable(Initial, Moves, SetWorker(s, w, x2), DoneLocal(w), SetWorker(s, w, x3));
    RetryIsReached(SetWorker(s, w, x3), w, answer, n);
    var x4 := Retried(x3, answer, n);
    SetTwice(s, w, x3, x4);
    SetTwice(s, w, x4, x4.(phase := Reporting));
    Runs.NextIsReachable(Initial, Moves, SetWorker(s, w, x4), DoneRetrying(w), SetWorker(s, w, x4.(phase := Reporting)));
  }

  /** A pass loses, doubles and invents no task, and the load is what is left unfinished. */
  lemma PassConserves(s: State, w: nat, answer: Answers, p: Token)
    requires Reachable(s) && Enabled(s, SwapTodo(w))
    ensures var worker, passed := s.workers[w], Passed(s.workers[w], answer);
            && Count(passed.unfinished, p) + Count(passed.messages, p) == Count(worker.todo, p) + Count(worker.unfinished, p)
            && passed.load == |passed.unfinished|
  {
    var s' := SetWorker(s, w, Passed(s.workers[w], answer));
    PassIsReached(s, w, answer);
    ReachableInv(s);
    ReachableInv(s');
    assert WorkerOk(s.workers[w]) && WorkerOk(s'.workers[w]);
    OneWorkerChanged(s, s', w, p);
  }

  lemma OneWorkerChanged(s: State, s': State, w: nat, p: Token)
    requires Inv(s) && Inv(s') && w < |s.workers| == |s'.workers| && s' == SetWorker(s, w, s'.workers[w])
    ensures HeldBy(s'.workers[w], p) == HeldBy(s.workers[w], p)
  {
    AtWorkersUpdate(s.workers, w, s'.workers[w], p);
    assert Copies(s, p.context, p.task) == Expected(s, p.context, p.task);
    assert Copies(s', p.context, p.task) == Expected(s', p.context, p.task);
  }
}
