/** Holder/MQDExecutor on a thread of Holder/ExecutionManager: posting and suspending. A post
    holds the deque mutex from the push to the signal, so only one is between the two. The
    executor's thread takes its instructions only between two runs of the executor. */
module WakeUp {
  import Runs

  datatype Kind = Message | Create | Remove

  /** What became of the signal for a post: still to come, a wake-up put into the thread's
      instruction list, or nothing, because the executor was not found. */
  datatype Signal = Pending | Sent | Missed

  datatype Item = Item(kind: Kind, signal: Signal)

  datatype Tag = Executing | Suspended | Ended

  /** Run of the executor: not in it, or after its batch has taken the deques, with so many
      messages left. */
  datatype Running = Outside | Batch(left: nat)

  /** idStored: InitExecutor has stored the executor's ID, so that DoSignal finds the executor.
      holder: someone has pushed the last item and has not signalled yet. counted: sends that
      have counted their message and not pushed it. wakes: wake-ups in the instruction list. */
  datatype State = State(
    idStored: bool, queued: seq<Item>, holder: bool, counted: nat, totalSize: int,
    tag: Tag, running: Running, wakes: nat, endRequested: bool)

  const Start := State(false, [], false, 0, 0, Executing, Outside, 0, false)

  datatype Step =
    | StoreID
    | CountMessage
    | Push(kind: Kind)
    | DoSignal
    | TakeInstructions(terminate: bool)   // all wake-ups; perhaps a request to terminate
    | TakeQueues                          // Run begins
    | Process
    | Return                              // Run ends: End, Continue or Suspend

  predicate Enabled(s: State, step: Step) {
    match step
    case StoreID => !s.idStored
    case CountMessage => true
    case Push(kind) => !s.holder && (kind == Message ==> s.counted > 0)
    case DoSignal => s.holder && s.queued != []
    case TakeInstructions(_) => s.running == Outside
    case TakeQueues => s.running == Outside && s.tag == Executing && !s.holder
    case Process => s.running.Batch? && s.running.left > 0
    case Return => s.running == Batch(0)
  }

  function Messages(q: seq<Item>): nat {
    if q == [] then 0 else Messages(q[..|q| - 1]) + (if q[|q| - 1].kind == Message then 1 else 0)
  }

  function WithSignal(q: seq<Item>, signal: Signal): seq<Item>
    requires q != []
  {
    q[|q| - 1 := q[|q| - 1].(signal := signal)]
  }

  function Apply(s: State, step: Step): State
    requires Enabled(s, step)
  {
    match step
    case StoreID => s.(idStored := true)
    case CountMessage => s.(counted := s.counted + 1, totalSize := s.totalSize + 1)
    case Push(kind) =>
      s.(queued := s.queued + [Item(kind, Pending)], holder := true, counted := if kind == Message then s.counted - 1 else s.counted)
    case DoSignal =>
      if s.idStored && s.tag != Ended then s.(holder := false, queued := WithSignal(s.queued, Sent), wakes := s.wakes + 1)
      else s.(holder := false, queued := WithSignal(s.queued, Missed))
    case TakeInstructions(terminate) =>
      s.(wakes := 0, endRequested := s.endRequested || terminate,
         tag := if s.tag == Suspended && (s.wakes > 0 || terminate) then Executing else s.tag)
    case TakeQueues => s.(queued := [], running := Batch(Messages(s.queued)))
    case Process => s.(running := Batch(s.running.left - 1), totalSize := s.totalSize - 1)
    case Return =>
      s.(running := Outside,
         tag := if s.endRequested then Ended else if s.totalSize > 0 then Executing else Suspended)
  }

  // ----- the invariant -----

  /** Will not look at the deques again unless something makes it. */
  predicate Asleep(s: State) { s.tag == Suspended || s.running.Batch? }

  ghost predicate Inv(s: State) {
    && s.totalSize == s.counted + Messages(s.queued) + (if s.running.Batch? then s.running.left else 0)
    && (s.holder ==> s.queued != [])
    && (forall i {:trigger s.queued[i]} :: 0 <= i < |s.queued| ==> (s.queued[i].signal == Pending <==> s.holder && i == |s.queued| - 1))
    && (s.running.Batch? ==> s.tag == Executing)
    && (Asleep(s) ==> forall i {:trigger s.queued[i]} :: 0 <= i < |s.queued| && s.queued[i].signal == Sent ==> s.wakes > 0)
  }

  lemma MessagesAppend(q: seq<Item>, x: Item)
    ensures Messages(q + [x]) == Messages(q) + (if x.kind == Message then 1 else 0)
  {
    assert (q + [x])[..|q|] == q;
  }

  lemma MessagesWithSignal(q: seq<Item>, signal: Signal)
    requires q != []
    ensures Messages(WithSignal(q, signal)) == Messages(q)
  {
    assert WithSignal(q, signal)[..|q| - 1] == q[..|q| - 1];
  }

  lemma StepKeepsInv(s: State, step: Step)
    requires Inv(s) && Enabled(s, step)
    ensures Inv(Apply(s, step))
  {
    match step
    case Push(kind) => MessagesAppend(s.queued, Item(kind, Pending));
    case DoSignal =>
      MessagesWithSignal(s.queued, Sent);
      MessagesWithSignal(s.queued, Missed);
    case _ =>
  }

  // ----- every run -----

  ghost predicate Initial(s: State) { s == Start }

  ghost predicate Moves(s: State, step: Step, s': State) { Enabled(s, step) && s' == Apply(s, step) }

  ghost predicate Reachable(s: State) { Runs.Reachable(Initial, Moves, s) }

  lemma ReachableInv(s: State)
    requires Reachable(s)
    ensures Inv(s)
  {
    forall s: State, step: Step, s': State | Inv(s) && Moves(s, step, s') ensures Inv(s') {
      StepKeepsInv(s, step);
    }
    Runs.ReachableKeeps(Initial, Moves, Inv, s);
  }

  /** While the executor sleeps, every post whose signal was not missed has a wake-up on its
      way: in the instruction list, or about to be put there by whoever holds the mutex. */
  lemma NoLostWakeUp(s: State, i: nat)
    requires Reachable(s) && s.tag == Suspended && i < |s.queued| && s.queued[i].signal != Missed
    ensures s.wakes > 0 || (s.holder && i == |s.queued| - 1)
    ensures s.wakes > 0 ==> Enabled(s, TakeInstructions(false)) && Apply(s, TakeInstructions(false)).tag == Executing
  {
    ReachableInv(s);
  }

  /** Nothing is on its way for the posts in the deques. */
  predicate Stranded(s: State) { s.tag == Suspended && s.queued != [] && s.wakes == 0 && !s.holder }

  // ----- in the order of the steps -----

  ghost predicate IsRun(states: seq<State>, steps: seq<Step>) { Runs.IsRun(Initial, Moves, states, steps) }

  /** Before step j the executor's thread was asked to terminate it and then left Run. */
  ghost predicate EndedBefore(steps: seq<Step>, j: nat) {
    exists l, m :: 0 <= l < m < j && j <= |steps| && steps[l] == TakeInstructions(true) && steps[m] == Return
  }

  lemma InvInRun(states: seq<State>, steps: seq<Step>, k: nat)
    requires IsRun(states, steps) && k <= |steps|
    ensures Inv(states[k])
  {
    forall s: State, step: Step, s': State | Inv(s) && Moves(s, step, s') ensures Inv(s') {
      StepKeepsInv(s, step);
    }
    Runs.RunKeeps(Initial, Moves, Inv, states, steps, k);
  }

  lemma {:induction false} StoredIff(states: seq<State>, steps: seq<Step>, k: nat)
    requires IsRun(states, steps) && k <= |steps|
    ensures states[k].idStored <==> StoreID in steps[..k]
    ensures !states[k].idStored ==> states[k].wakes == 0
  {
    if k > 0 {
      StoredIff(states, steps, k - 1);
      assert Moves(states[k - 1], steps[k - 1], states[k]);
      assert steps[..k] == steps[..k - 1] + [steps[k - 1]];
    }
  }

  lemma {:induction false} RequestedIff(states: seq<State>, steps: seq<Step>, k: nat)
    requires IsRun(states, steps) && k <= |steps|
    ensures states[k].endRequested <==> TakeInstructions(true) in steps[..k]
  {
    if k > 0 {
      RequestedIff(states, steps, k - 1);
      assert Moves(states[k - 1], steps[k - 1], states[k]);
      assert steps[..k] == steps[..k - 1] + [steps[k - 1]];
    }
  }

  lemma EndedNext(steps: seq<Step>, k: nat)
    requires 0 < k <= |steps|
    ensures EndedBefore(steps, k) <==> EndedBefore(steps, k - 1) || (steps[k - 1] == Return && TakeInstructions(true) in steps[..k - 1])
  {
    if EndedBefore(steps, k) && !EndedBefore(steps, k - 1) {
      var l, m :| 0 <= l < m < k && steps[l] == TakeInstructions(true) && steps[m] == Return;
      assert m == k - 1;
      assert steps[..m][l] == TakeInstructions(true);
    }
    if steps[k - 1] == Return && TakeInstructions(true) in steps[..k - 1] {
      var l :| 0 <= l < k - 1 && steps[l] == TakeInstructions(true);
      assert EndedBefore(steps, k);
    }
  }

  lemma {:induction false} EndedIff(states: seq<State>, steps: seq<Step>, k: nat)
    requires IsRun(states, steps) && k <= |steps|
    ensures states[k].tag == Ended <==> EndedBefore(steps, k)
  {
    if k > 0 {
      EndedIff(states, steps, k - 1);
      RequestedIff(states, steps, k - 1);
      InvInRun(states, steps, k - 1);
      assert Moves(states[k - 1], steps[k - 1], states[k]);
      EndedNext(steps, k);
    }
  }

  /** Step j sends the signal for what is item i of the deques at k. */
  ghost predicate IsSignalOf(states: seq<State>, steps: seq<Step>, j: nat, k: nat, i: nat) {
    && j < k <= |steps| < |states| && steps[j] == DoSignal && |states[j].queued| == i + 1
    && forall m :: j < m < k ==> steps[m] != TakeQueues
  }

  /** Every item whose signal is not pending has its signalling step. */
  lemma {:induction false} SignalStep(states: seq<State>, steps: seq<Step>, k: nat, i: nat) returns (j: nat)
    requires IsRun(states, steps) && k <= |steps| && i < |states[k].queued| && states[k].queued[i].signal != Pending
    ensures IsSignalOf(states, steps, j, k, i)
  {
    assert k > 0;
    var s := states[k - 1];
    assert Moves(s, steps[k - 1], states[k]);
    if steps[k - 1] == DoSignal && i == |s.queued| - 1 {
      j := k - 1;
    } else {
      assert steps[k - 1] != TakeQueues && i < |s.queued| && s.queued[i] == states[k].queued[i];
      j := SignalStep(states, steps, k - 1, i);
    }
  }

  lemma {:induction false} SignalStays(states: seq<State>, steps: seq<Step>, j: nat, k: nat, i: nat)
    requires IsRun(states, steps) && IsSignalOf(states, steps, j, k, i)
    ensures i < |states[k].queued| && states[k].queued[i] == states[j + 1].queued[i] && states[k].queued[i].signal != Pending
  {
    assert Moves(states[j], steps[j], states[j + 1]);
    if j + 1 < k {
      SignalStays(states, steps, j, k - 1, i);
      InvInRun(states, steps, k - 1);
      assert Moves(states[k - 1], steps[k - 1], states[k]);
    }
  }

  /** At every point of every run a signal was missed if and only if it was sent before the ID
      was stored, or after the executor had ended. */
  lemma MissedIff(states: seq<State>, steps: seq<Step>, j: nat, k: nat, i: nat)
    requires IsRun(states, steps) && IsSignalOf(states, steps, j, k, i)
    ensures i < |states[k].queued|
    ensures states[k].queued[i].signal == Missed <==> StoreID !in steps[..j] || EndedBefore(steps, j)
  {
    SignalStays(states, steps, j, k, i);
    StoredIff(states, steps, j);
    EndedIff(states, steps, j);
    assert Moves(states[j], steps[j], states[j + 1]);
  }

  lemma EndedStays(steps: seq<Step>, j: nat, k: nat)
    requires EndedBefore(steps, j) && j <= k <= |steps|
    ensures EndedBefore(steps, k)
  {
    var l, m :| 0 <= l < m < j && steps[l] == TakeInstructions(true) && steps[m] == Return;
    assert steps[l] == TakeInstructions(true) && steps[m] == Return;
  }

  /** After the signal for the last item nothing was pushed or signalled. */
  lemma {:induction false} NothingSince(states: seq<State>, steps: seq<Step>, j: nat, k: nat, i: nat)
    requires IsRun(states, steps) && IsSignalOf(states, steps, j, k, i) && |states[k].queued| == i + 1
    requires StoreID !in steps[..j]
    ensures states[k].wakes == 0 && !states[k].holder
  {
    assert Moves(states[k - 1], steps[k - 1], states[k]);
    if j + 1 < k {
      SignalStays(states, steps, j, k - 1, i);
      NothingSince(states, steps, j, k - 1, i);
    } else {
      StoredIff(states, steps, j);
    }
  }

  /** A suspended executor is stranded, at any point of any run, if and only if the signal for
      the newest item in its deques was sent before its ID was stored. */
  lemma StrandedIff(states: seq<State>, steps: seq<Step>, k: nat)
    requires IsRun(states, steps) && k <= |steps| && states[k].tag == Suspended
    ensures Stranded(states[k])
            <==> && states[k].queued != []
                 && exists j: nat :: IsSignalOf(states, steps, j, k, |states[k].queued| - 1) && StoreID !in steps[..j]
  {
    InvInRun(states, steps, k);
    var n := |states[k].queued|;
    if Stranded(states[k]) {
      var j := SignalStep(states, steps, k, n - 1);
      MissedIff(states, steps, j, k, n - 1);
      EndedIff(states, steps, k);
      if EndedBefore(steps, j) { EndedStays(steps, j, k); }
      assert states[k].queued[n - 1].signal == Missed;
    }
    if n > 0 {
      forall j: nat | IsSignalOf(states, steps, j, k, n - 1) && StoreID !in steps[..j] ensures Stranded(states[k]) {
        NothingSince(states, steps, j, k, n - 1);
      }
    }
  }

  /** If the ID is stored before any post is signalled, the executor is never stranded. */
  lemma StoredFirstIsNeverStranded(states: seq<State>, steps: seq<Step>, k: nat)
    requires IsRun(states, steps) && k <= |steps|
    requires forall j: nat :: j < |steps| && steps[j] == DoSignal ==> StoreID in steps[..j]
    ensures !Stranded(states[k])
  {
    if states[k].tag == Suspended {
      StrandedIff(states, steps, k);
    }
  }

  /** An executor suspends only with no message queued and none about to be: for messages the
      count makes up for a signal that comes too early, for creations and removals it does not. */
  lemma SuspendsWithoutMessages(s: State)
    requires Reachable(s) && Enabled(s, Return) && Apply(s, Return).tag == Suspended
    ensures Messages(s.queued) == 0 && s.counted == 0
  {
    ReachableInv(s);
  }

  /** The thread runs the executor before its ID is stored; a receiver is created in between,
      and its signal finds no executor: the creation waits although the ID is known by now. */
  lemma EarlyPostIsStranded() returns (s: State)
    ensures Reachable(s) && s.idStored && Stranded(s)
  {
    Runs.InitialIsReachable<State, Step>(Initial, Moves, Start);
    var s1 := Start.(running := Batch(0));
    Runs.NextIsReachable(Initial, Moves, Start, TakeQueues, s1);
    var s2 := Start.(tag := Suspended);
    Runs.NextIsReachable(Initial, Moves, s1, Return, s2);
    var s3 := s2.(queued := [Item(Create, Pending)], holder := true);
    assert [] + [Item(Create, Pending)] == [Item(Create, Pending)];
    Runs.NextIsReachable(Initial, Moves, s2, Push(Create), s3);
    var s4 := s2.(queued := [Item(Create, Missed)]);
    assert WithSignal(s3.queued, Missed) == s4.queued;
    Runs.NextIsReachable(Initial, Moves, s3, DoSignal, s4);
    s := s4.(idStored := true);
    Runs.NextIsReachable(Initial, Moves, s4, StoreID, s);
  }
}
