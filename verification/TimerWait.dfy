/** Holder/ExecutionManager, TimerThread::operator(): taking the posted messages, handling them,
    and waiting for the next beat or for a notification. The messages are taken under the mutex,
    which is then released; the wait begins later, and does not look at the messages again. */
module TimerWait {
  import opened Collections
  import Runs
  import T = TimerThread

  /** Top: about to take the messages. Working: taken, and not waiting yet. Asleep: waiting for
      a notification, at most until the deadline. */
  datatype Phase = Top | Working | Asleep(deadline: Option<nat>)

  /** posted: m_messages. local: those taken and not handled yet. Histories: sent, all messages
      ever posted; handled, all that were processed. */
  datatype State = State(
    core: T.State, posted: seq<T.Message>, local: seq<T.Message>, phase: Phase,
    sent: seq<T.Message>, handled: seq<T.Message>)

  const Start := State(T.Start, [], [], Top, [], [])

  datatype Step =
    | Post(msg: T.Message)                     // with a notification, which wakes a sleeper
    | Swap
    | Process(hit: Option<T.TimerID>, now: nat)
    | Serve(j: nat, now: nat)
    | Sleep(j: nat, now: nat)                  // until the beat of the top entry
    | SleepWithoutTimers
    | TimeOut(now: nat)

  predicate Enabled(s: State, step: Step) {
    match step
    case Post(_) => true
    case Swap => s.phase == Top
    case Process(hit, now) => s.phase == Working && s.local != [] && T.Enabled(s.core, T.Process(s.local[0], hit, now))
    case Serve(j, now) => s.phase == Working && s.local == [] && T.Enabled(s.core, T.Serve(j, now))
    case Sleep(j, now) =>
      s.phase == Working && s.local == [] && T.IsTop(s.core.queue, j) && s.core.clock <= now < s.core.queue[j].nextBeat
    case SleepWithoutTimers => s.phase == Working && s.local == [] && s.core.queue == []
    case TimeOut(now) => s.phase.Asleep? && s.phase.deadline.Some? && s.phase.deadline.value <= now && s.core.clock <= now
  }

  function Apply(s: State, step: Step): State
    requires Enabled(s, step)
  {
    match step
    case Post(msg) => s.(posted := s.posted + [msg], sent := s.sent + [msg], phase := if s.phase.Asleep? then Top else s.phase)
    case Swap => s.(posted := [], local := s.posted, phase := Working)
    case Process(hit, now) =>
      s.(core := T.Apply(s.core, T.Process(s.local[0], hit, now)), local := s.local[1..], handled := s.handled + [s.local[0]])
    case Serve(j, now) => s.(core := T.Apply(s.core, T.Serve(j, now)), phase := Top)
    case Sleep(j, now) => s.(core := s.core.(clock := now), phase := Asleep(Some(s.core.queue[j].nextBeat)))
    case SleepWithoutTimers => s.(phase := Asleep(None))
    case TimeOut(now) => s.(core := s.core.(clock := now), phase := Top)
  }

  predicate Sleeps(step: Step) { step.Sleep? || step.SleepWithoutTimers? }

  // ----- the invariant -----

  /** Everything the thread does to its timers is a step of TimerThread; every message posted is
      handled once, in the order of posting, or still to come; a sleeper has none taken. */
  ghost predicate Inv(s: State) {
    && T.Inv(s.core)
    && s.sent == s.handled + s.local + s.posted
    && (s.phase != Working ==> s.local == [])
    && (s.phase.Asleep? ==> match s.phase.deadline
                            case None => s.core.queue == []
                            case Some(d) => exists j: nat :: T.IsTop(s.core.queue, j) && s.core.queue[j].nextBeat == d)
  }

  lemma LaterClock(s: T.State, now: nat)
    requires T.Inv(s) && s.clock <= now
    ensures T.Inv(s.(clock := now))
  {
    var s' := s.(clock := now);
    forall e <- s.queue ensures T.EntryOk(s', e) {
      assert T.EntryOk(s, e);
    }
    forall i | i in s.timers ensures T.TimerOk(s', i) {
      assert T.TimerOk(s, i);
    }
    forall f <- s.fired ensures T.FiringOk(s', f) {
      assert T.FiringOk(s, f);
    }
  }

  lemma StepKeepsInv(s: State, step: Step)
    requires Inv(s) && Enabled(s, step)
    ensures Inv(Apply(s, step))
  {
    match step
    case Post(msg) => assert s.handled + s.local + s.posted + [msg] == s.handled + s.local + (s.posted + [msg]);
    case Swap => assert s.handled + [] + s.posted == s.handled + s.posted + [];
    case Process(hit, now) =>
      T.StepKeepsInv(s.core, T.Process(s.local[0], hit, now));
      assert s.handled + s.local == s.handled + [s.local[0]] + s.local[1..];
    case Serve(j, now) => T.StepKeepsInv(s.core, T.Serve(j, now));
    case Sleep(j, now) => LaterClock(s.core, now);
    case SleepWithoutTimers =>
    case TimeOut(now) => LaterClock(s.core, now);
  }

  // ----- every run -----

  ghost predicate Initial(s: State) { s == Start }

  ghost predicate Moves(s: State, step: Step, s': State) { Enabled(s, step) && s' == Apply(s, step) }

  ghost predicate Reachable(s: State) { Runs.Reachable(Initial, Moves, s) }

  ghost predicate IsRun(states: seq<State>, steps: seq<Step>) { Runs.IsRun(Initial, Moves, states, steps) }

  lemma ReachableInv(s: State)
    requires Reachable(s)
    ensures Inv(s)
  {
    T.InvIsInductive();
    forall s: State, step: Step, s': State | Inv(s) && Moves(s, step, s') ensures Inv(s') {
      StepKeepsInv(s, step);
    }
    Runs.ReachableKeeps(Initial, Moves, Inv, s);
  }

  /** In every run no message is lost, doubled or overtaken. */
  lemma HandledInOrder(s: State)
    requires Reachable(s)
    ensures s.sent == s.handled + s.local + s.posted
    ensures s.phase.Asleep? ==> s.sent == s.handled + s.posted
  {
    ReachableInv(s);
    assert s.local == [] ==> s.handled + s.local == s.handled;
  }

  /** The messages posted, as they were given, in order. */
  function Posts(steps: seq<Step>): seq<T.Message> {
    if steps == [] then []
    else Posts(steps[..|steps| - 1]) + if steps[|steps| - 1].Post? then [steps[|steps| - 1].msg] else []
  }

  function Handlings(steps: seq<Step>): nat {
    if steps == [] then 0 else Handlings(steps[..|steps| - 1]) + if steps[|steps| - 1].Process? then 1 else 0
  }

  lemma {:induction false} SentIsPosted(states: seq<State>, steps: seq<Step>, k: nat)
    requires IsRun(states, steps) && k <= |steps|
    ensures states[k].sent == Posts(steps[..k]) && |states[k].handled| == Handlings(steps[..k])
  {
    if k > 0 {
      SentIsPosted(states, steps, k - 1);
      SentNext(states, steps, k - 1);
    }
  }

  lemma SentNext(states: seq<State>, steps: seq<Step>, k: nat)
    requires IsRun(states, steps) && k < |steps|
    requires states[k].sent == Posts(steps[..k]) && |states[k].handled| == Handlings(steps[..k])
    ensures states[k + 1].sent == Posts(steps[..k + 1]) && |states[k + 1].handled| == Handlings(steps[..k + 1])
  {
    assert Moves(states[k], steps[k], states[k + 1]);
    assert steps[..k + 1][..k] == steps[..k];
  }

  /** The n-th message that is processed in a run is the n-th that was posted. */
  lemma NthHandledIsNthPosted(states: seq<State>, steps: seq<Step>, k: nat)
    requires IsRun(states, steps) && k < |steps| && steps[k].Process?
    ensures var n := Handlings(steps[..k]);
            states[k].local != [] && n < |Posts(steps[..k])| && states[k].local[0] == Posts(steps[..k])[n]
  {
    assert Moves(states[k], steps[k], states[k + 1]);
    SentIsPosted(states, steps, k);
    T.InvIsInductive();
    forall s: State, step: Step, s': State | Inv(s) && Moves(s, step, s') ensures Inv(s') {
      StepKeepsInv(s, step);
    }
    Runs.RunKeeps(Initial, Moves, Inv, states, steps, k);
  }

  // ----- what a sleeper overlooks -----

  /** Step z is the last before w that takes the messages. */
  ghost predicate LastSwap(steps: seq<Step>, z: nat, w: nat) {
    z < w <= |steps| && steps[z] == Swap && forall m :: z < m < w ==> steps[m] != Swap
  }

  ghost predicate PostedBetween(steps: seq<Step>, z: nat, w: nat) {
    exists p :: z < p < w <= |steps| && steps[p].Post?
  }

  /** Whoever is working has taken the messages. */
  lemma {:induction false} SwapBefore(states: seq<State>, steps: seq<Step>, w: nat) returns (z: nat)
    requires IsRun(states, steps) && w <= |steps| && states[w].phase == Working
    ensures LastSwap(steps, z, w)
  {
    assert w > 0;
    assert Moves(states[w - 1], steps[w - 1], states[w]);
    if steps[w - 1] == Swap {
      z := w - 1;
    } else {
      z := SwapBefore(states, steps, w - 1);
    }
  }

  /** Since the messages were taken, exactly the posts have filled the list again. */
  lemma {:induction false} PostedSince(states: seq<State>, steps: seq<Step>, z: nat, w: nat)
    requires IsRun(states, steps) && LastSwap(steps, z, w)
    ensures states[w].posted != [] <==> PostedBetween(steps, z, w)
  {
    assert Moves(states[w - 1], steps[w - 1], states[w]);
    if z + 1 < w {
      PostedSince(states, steps, z, w - 1);
      PostedNext(steps, z, w);
    }
  }

  lemma PostedNext(steps: seq<Step>, z: nat, w: nat)
    requires z + 1 < w <= |steps|
    ensures PostedBetween(steps, z, w) <==> PostedBetween(steps, z, w - 1) || steps[w - 1].Post?
  {
    if PostedBetween(steps, z, w) && !steps[w - 1].Post? {
      var p :| z < p < w && steps[p].Post?;
      assert p < w - 1;
    }
    if steps[w - 1].Post? {
      var p := w - 1;
      assert z < p < w && steps[p].Post?;
    }
  }

  /** While the thread sleeps, the last step of the run is the one with which it fell asleep. */
  lemma SleepsSince(states: seq<State>, steps: seq<Step>, k: nat)
    requires IsRun(states, steps) && k <= |steps| && states[k].phase.Asleep?
    ensures k > 0 && Sleeps(steps[k - 1])
  {
    if k > 0 { assert Moves(states[k - 1], steps[k - 1], states[k]); }
  }

  /** At every point of every run: a sleeping thread overlooks a message if and only if one was
      posted after it last took the messages and before it fell asleep. */
  lemma OverlooksIff(states: seq<State>, steps: seq<Step>, z: nat, k: nat)
    requires IsRun(states, steps) && 0 < k <= |steps| && states[k].phase.Asleep? && LastSwap(steps, z, k - 1)
    ensures states[k].posted != [] <==> PostedBetween(steps, z, k - 1)
  {
    SleepsSince(states, steps, k);
    assert Moves(states[k - 1], steps[k - 1], states[k]);
    PostedSince(states, steps, z, k - 1);
  }

  /** Such a step exists whenever the thread sleeps. */
  lemma SleeperHasSwapped(states: seq<State>, steps: seq<Step>, k: nat) returns (z: nat)
    requires IsRun(states, steps) && k <= |steps| && states[k].phase.Asleep?
    ensures k > 0 && LastSwap(steps, z, k - 1)
  {
    SleepsSince(states, steps, k);
    assert Moves(states[k - 1], steps[k - 1], states[k]);
    z := SwapBefore(states, steps, k - 1);
  }

  // ----- for how long -----

  /** A sleeper is woken by the next post, or when the least beat is due; without timers by the
      next post only. */
  lemma WokenIff(s: State, step: Step)
    requires Reachable(s) && s.phase.Asleep?
    ensures Enabled(s, step) <==> step.Post? || (step.TimeOut? && s.phase.deadline.Some? && s.phase.deadline.value <= step.now && s.core.clock <= step.now)
    ensures Enabled(s, step) ==> Apply(s, step).phase == Top
    ensures s.phase.deadline == None <==> s.core.queue == []
    ensures s.phase.deadline.Some? ==> forall e <- s.core.queue :: s.phase.deadline.value <= e.nextBeat
  {
    ReachableInv(s);
    if s.phase.deadline.Some? {
      var j: nat :| T.IsTop(s.core.queue, j) && s.core.queue[j].nextBeat == s.phase.deadline.value;
      forall e <- s.core.queue ensures s.phase.deadline.value <= e.nextBeat {
        T.TopIsLeast(s.core.queue, j, e);
      }
    }
  }

  /** Without timers, the next step of any run is a post: until then, and if there is none for
      ever, what was overlooked stays where it is. */
  lemma OverlookedUntilPost(states: seq<State>, steps: seq<Step>, i: nat)
    requires IsRun(states, steps) && i < |steps| && states[i].phase == Asleep(None)
    ensures steps[i].Post? && states[i + 1].posted == states[i].posted + [steps[i].msg]
  {
    assert Moves(states[i], steps[i], states[i + 1]);
  }

  /** The thread takes an empty list, the first timer is set, and the thread goes to sleep. */
  lemma FirstTimerIsOverlooked(def: T.TimerDefinition) returns (s: State)
    ensures Reachable(s) && s.phase == Asleep(None) && s.posted == [T.Set(def)] && s.core.timers == map[]
  {
    Runs.InitialIsReachable<State, Step>(Initial, Moves, Start);
    var s1 := Start.(phase := Working);
    Runs.NextIsReachable(Initial, Moves, Start, Swap, s1);
    assert [] + [T.Set(def)] == [T.Set(def)];
    var s2 := s1.(posted := [T.Set(def)], sent := [T.Set(def)]);
    Runs.NextIsReachable(Initial, Moves, s1, Post(T.Set(def)), s2);
    s := s2.(phase := Asleep(None));
    Runs.NextIsReachable(Initial, Moves, s2, SleepWithoutTimers, s);
  }
}
