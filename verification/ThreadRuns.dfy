/** Whole runs of the execution manager, told by the calls of AddExecutor, DoomThread and
    LockShop: who is accepted, and with whom an executor shares its thread. */
module ThreadRuns {
  import opened Collections
  import opened ThreadManager
  import Runs

  ghost predicate IsRun(states: seq<State>, steps: seq<Step>) { Runs.IsRun(Initial, Moves, states, steps) }

  lemma StepTo(states: seq<State>, steps: seq<Step>, k: nat)
    requires IsRun(states, steps) && k < |steps|
    ensures NamesLive(states[k]) && Enabled(states[k], steps[k]) && states[k + 1] == Apply(states[k], steps[k])
  {
    assert Moves(states[k], steps[k], states[k + 1]);
  }

  lemma InvAt(states: seq<State>, steps: seq<Step>, k: nat)
    requires IsRun(states, steps) && k <= |steps|
    ensures Inv(states[k])
  {
    forall s: State, step: Step, s': State | Inv(s) && Moves(s, step, s') ensures Inv(s') {
      StepKeepsInv(s, step);
    }
    Runs.RunKeeps(Initial, Moves, Inv, states, steps, k);
  }

  lemma {:induction false} ThreadsAreNew(states: seq<State>, steps: seq<Step>, j: nat, k: nat)
    requires IsRun(states, steps) && j <= k <= |steps|
    ensures states[j].nextThread <= states[k].nextThread
  {
    if j < k {
      ThreadsAreNew(states, steps, j, k - 1);
      StepTo(states, steps, k - 1);
      ThreadsOnlyAdded(states[k - 1], steps[k - 1]);
    }
  }

  lemma ThreadsOnlyAdded(s: State, step: Step)
    requires NamesLive(s) && Enabled(s, step)
    ensures s.nextThread <= Apply(s, step).nextThread
  {
  }

  // ----- singletons -----

  /** The call is accepted: the executor it gets the ID for is the manager's from then on. */
  predicate Accepts(states: seq<State>, steps: seq<Step>, k: nat)
    requires k < |steps| && k + 1 < |states|
  {
    steps[k].AddExecutor? && states[k].nextExec !in states[k].accepted && states[k].nextExec in states[k + 1].accepted
  }

  /** Only e was ever mapped to the thread, and nobody else will be. */
  ghost predicate Only(s: State, t: ThreadID, e: ExecutorID) {
    && t < s.nextThread && (t in s.threads ==> s.threads[t].singleton)
    && forall f :: f in s.executorMap && s.executorMap[f] == t ==> f == e
  }

  lemma StaysOnly(s: State, step: Step, t: ThreadID, e: ExecutorID)
    requires NamesLive(s) && Enabled(s, step) && Only(s, t, e)
    ensures Only(Apply(s, step), t, e)
  {
  }

  lemma {:induction false} OnlyFrom(states: seq<State>, steps: seq<Step>, k: nat, m: nat, t: ThreadID, e: ExecutorID)
    requires IsRun(states, steps) && k <= m <= |steps| && Only(states[k], t, e)
    ensures Only(states[m], t, e)
    decreases m
  {
    if k < m {
      OnlyFrom(states, steps, k, m - 1, t, e);
      StepTo(states, steps, m - 1);
      StaysOnly(states[m - 1], steps[m - 1], t, e);
    }
  }

  lemma SingletonStarts(s: State, name: Name)
    requires Inv(s) && s.nextExec in Added(s, name, true).accepted
    ensures var s', e, t := Added(s, name, true), s.nextExec, s.nextThread;
            && t !in s.threads && t in s'.threads && s'.threads[t].first == Some(e) && e in s'.executorMap && s'.executorMap[e] == t
            && Only(s', t, e)
  {
    assert s.nextExec !in s.accepted;
    forall f | f in s.executorMap ensures s.executorMap[f] != s.nextThread {
      assert s.executorMap[f] in s.threads;
    }
  }

  /** An executor accepted as a singleton has a thread started for it, and never, before or
      after, is another one mapped to that thread. */
  lemma SingletonIsAlone(states: seq<State>, steps: seq<Step>, k: nat, j: nat)
    requires IsRun(states, steps) && k < |steps| && j <= |steps|
    requires Accepts(states, steps, k) && steps[k].singleton
    ensures var s, e, t := states[k + 1], states[k].nextExec, states[k].nextThread;
            && t !in states[k].threads && t in s.threads && s.threads[t].first == Some(e) && e in s.executorMap && s.executorMap[e] == t
            && forall f :: f in states[j].executorMap && states[j].executorMap[f] == t ==> f == e
  {
    var e, t := states[k].nextExec, states[k].nextThread;
    StepTo(states, steps, k);
    InvAt(states, steps, k);
    SingletonStarts(states[k], steps[k].name);
    if k < j {
      OnlyFrom(states, steps, k + 1, j, t, e);
    } else {
      ThreadsAreNew(states, steps, j, k);
      InvAt(states, steps, j);
      forall f | f in states[j].executorMap ensures states[j].executorMap[f] != t {
        assert states[j].executorMap[f] in states[j].threads;
      }
    }
  }

  // ----- who started a thread -----

  /** Call j started thread t. */
  predicate Starts(states: seq<State>, steps: seq<Step>, j: nat, t: ThreadID)
    requires j < |steps| && j + 1 < |states|
  {
    Accepts(states, steps, j) && states[j].nextThread == t && t in states[j + 1].threads
  }

  lemma {:induction false} StartOf(states: seq<State>, steps: seq<Step>, k: nat, t: ThreadID) returns (j: nat)
    requires IsRun(states, steps) && k <= |steps| && t in states[k].threads
    ensures j < k && Starts(states, steps, j, t)
    ensures steps[j].singleton == states[k].threads[t].singleton && steps[j].name == states[k].threads[t].name
  {
    assert k > 0;
    StepTo(states, steps, k - 1);
    InvAt(states, steps, k - 1);
    if t in states[k - 1].threads {
      j := StartOf(states, steps, k - 1, t);
      ThreadStays(states[k - 1], steps[k - 1], t);
    } else {
      j := k - 1;
      ThreadComes(states[k - 1], steps[k - 1], t);
    }
  }

  lemma ThreadStays(s: State, step: Step, t: ThreadID)
    requires NamesLive(s) && Enabled(s, step) && t in s.threads && t < s.nextThread && t in Apply(s, step).threads
    ensures Apply(s, step).threads[t].singleton == s.threads[t].singleton && Apply(s, step).threads[t].name == s.threads[t].name
  {
  }

  lemma ThreadComes(s: State, step: Step, t: ThreadID)
    requires Inv(s) && Enabled(s, step) && t !in s.threads && t in Apply(s, step).threads
    ensures step.AddExecutor? && t == s.nextThread && s.nextExec !in s.accepted && s.nextExec in Apply(s, step).accepted
    ensures Apply(s, step).threads[t].singleton == step.singleton && Apply(s, step).threads[t].name == step.name
  {
  }

  lemma StartIsUnique(states: seq<State>, steps: seq<Step>, i: nat, j: nat, t: ThreadID)
    requires IsRun(states, steps) && i < |steps| && j < |steps| && Starts(states, steps, i, t) && Starts(states, steps, j, t)
    ensures i == j
  {
    var a, b := if i < j then i else j, if i < j then j else i;
    if a < b {
      StepTo(states, steps, a);
      InvAt(states, steps, a + 1);
      assert t < states[a + 1].nextThread;
      ThreadsAreNew(states, steps, a + 1, b);
    }
  }

  /** The thread of that name was started for a singleton. */
  ghost predicate TakenBySingleton(states: seq<State>, steps: seq<Step>, k: nat, name: Name)
    requires k <= |steps| && |states| == |steps| + 1
  {
    && name in states[k].names
    && exists j: nat :: j < k && Starts(states, steps, j, states[k].names[name]) && steps[j].singleton
  }

  /** A call is accepted if and only if there is a name, an ID is left, the shop is not locked,
      and, if there is a thread of that name, neither was that thread started for a singleton
      nor is this executor one. */
  lemma AcceptsIff(states: seq<State>, steps: seq<Step>, k: nat)
    requires IsRun(states, steps) && k < |steps| && steps[k].AddExecutor?
    ensures Accepts(states, steps, k) <==>
              && steps[k].name != "" && states[k].nextExec != 0xffff_fffe && !states[k].lockedShop
              && (steps[k].name in states[k].names ==> !steps[k].singleton && !TakenBySingleton(states, steps, k, steps[k].name))
  {
    StepTo(states, steps, k);
    InvAt(states, steps, k);
    var s := states[k];
    assert s.nextExec !in s.accepted;
    if steps[k].name in s.names {
      var t := s.names[steps[k].name];
      var j := StartOf(states, steps, k, t);
      forall i: nat | i < k && Starts(states, steps, i, t) ensures i == j {
        StartIsUnique(states, steps, i, j, t);
      }
    }
  }

  // ----- doomed threads and the locked shop -----

  ghost predicate Unnamed(s: State, t: ThreadID) {
    t < s.nextThread && forall n :: n in s.names ==> s.names[n] != t
  }

  lemma StaysUnnamed(s: State, step: Step, t: ThreadID)
    requires NamesLive(s) && Enabled(s, step) && Unnamed(s, t)
    ensures Unnamed(Apply(s, step), t)
    ensures forall e :: e in Apply(s, step).executorMap && Apply(s, step).executorMap[e] == t ==> e in s.executorMap && s.executorMap[e] == t
  {
  }

  /** A thread doomed by its name gets no further executor. */
  lemma {:induction false} DoomedGetsNoMore(states: seq<State>, steps: seq<Step>, k: nat, m: nat, e: ExecutorID)
    requires IsRun(states, steps) && k < m <= |steps| && steps[k].DoomThread? && steps[k].name in states[k].names
    requires e in states[m].executorMap && states[m].executorMap[e] == states[k].names[steps[k].name]
    ensures e in states[k].executorMap && states[k].executorMap[e] == states[m].executorMap[e]
  {
    var t := states[k].names[steps[k].name];
    StepTo(states, steps, k);
    InvAt(states, steps, k);
    DoomUnnames(states[k], steps[k].name);
    UnnamedFrom(states, steps, k + 1, m, t);
  }

  lemma DoomUnnames(s: State, name: Name)
    requires Inv(s) && name in s.names
    ensures Unnamed(Apply(s, DoomThread(name)), s.names[name])
  {
    var s' := Apply(s, DoomThread(name));
    forall n | n in s'.names ensures s'.names[n] != s.names[name] {
      assert s.threads[s.names[n]].name == n;
    }
  }

  lemma {:induction false} UnnamedFrom(states: seq<State>, steps: seq<Step>, k: nat, m: nat, t: ThreadID)
    requires IsRun(states, steps) && k <= m <= |steps| && Unnamed(states[k], t)
    ensures Unnamed(states[m], t)
    ensures forall e :: e in states[m].executorMap && states[m].executorMap[e] == t ==> e in states[k].executorMap && states[k].executorMap[e] == t
    decreases m
  {
    if k < m {
      UnnamedFrom(states, steps, k, m - 1, t);
      StepTo(states, steps, m - 1);
      StaysUnnamed(states[m - 1], steps[m - 1], t);
    }
  }

  /** Once the shop is locked it stays locked, and nobody is accepted any more. */
  lemma {:induction false} LockedAcceptsNobody(states: seq<State>, steps: seq<Step>, k: nat, m: nat)
    requires IsRun(states, steps) && k < m <= |steps| && steps[k].LockShop?
    ensures states[m].lockedShop && states[m].accepted == states[k].accepted
    decreases m
  {
    StepTo(states, steps, m - 1);
    if k < m - 1 {
      LockedAcceptsNobody(states, steps, k, m - 1);
      StaysLocked(states[m - 1], steps[m - 1]);
    }
  }

  lemma StaysLocked(s: State, step: Step)
    requires NamesLive(s) && Enabled(s, step) && s.lockedShop
    ensures Apply(s, step).lockedShop && Apply(s, step).accepted == s.accepted
  {
  }

  // ----- a signal to one executor -----

  /** A signal to one executor is with the thread that hosts it, as long as it has not ended. */
  ghost predicate Addressed(s: State, t: ThreadID, i: Instruction) {
    i.SignalOne? ==> i.exec in s.accepted && (i.exec in s.executorMap ==> s.executorMap[i.exec] == t)
  }

  ghost predicate AllAddressed(s: State) {
    forall t, i {:trigger Addressed(s, t, i)} :: t in s.threads && i in s.threads[t].instructions ==> Addressed(s, t, i)
  }

  lemma StepAddresses(s: State, step: Step)
    requires Inv(s) && Enabled(s, step) && AllAddressed(s)
    ensures AllAddressed(Apply(s, step))
  {
    var s' := Apply(s, step);
    forall t, i | t in s'.threads && i in s'.threads[t].instructions ensures Addressed(s', t, i) {
      InstructionAddressed(s, step, t, i);
    }
  }

  /** What is in a list was there before, or is what the step has posted. */
  lemma InstructionAddressed(s: State, step: Step, t: ThreadID, i: Instruction)
    requires Inv(s) && Enabled(s, step) && AllAddressed(s) && t in Apply(s, step).threads && i in Apply(s, step).threads[t].instructions
    ensures Addressed(Apply(s, step), t, i)
  {
    if i.SignalOne? {
      PostedOrOld(s, step, t, i);
      assert t in s.threads && i in s.threads[t].instructions ==> Addressed(s, t, i);
    }
  }

  lemma PostedOrOld(s: State, step: Step, t: ThreadID, i: Instruction)
    requires NamesLive(s) && Enabled(s, step) && t in Apply(s, step).threads && i in Apply(s, step).threads[t].instructions && i.SignalOne?
    ensures (t in s.threads && i in s.threads[t].instructions) || (step == SignalExecutor(i.exec, i.signal) && i.exec in s.executorMap && s.executorMap[i.exec] == t)
  {
  }

  lemma {:induction false} AddressedAt(states: seq<State>, steps: seq<Step>, k: nat)
    requires IsRun(states, steps) && k <= |steps|
    ensures AllAddressed(states[k])
  {
    if k > 0 {
      AddressedAt(states, steps, k - 1);
      StepTo(states, steps, k - 1);
      InvAt(states, steps, k - 1);
      StepAddresses(states[k - 1], steps[k - 1]);
    }
  }

  /** A request to terminate one executor, once its thread has handled it, has reached the
      executor, or it had ended before. */
  lemma SignalReachesIt(states: seq<State>, steps: seq<Step>, k: nat, e: ExecutorID)
    requires IsRun(states, steps) && k < |steps| && steps[k].Handle?
    requires SignalOne(e, RequestTermination) in states[k].threads[steps[k].t].instructions
    ensures e in states[k + 1].asked || e in states[k].ended
  {
    var s, t := states[k], steps[k].t;
    StepTo(states, steps, k);
    InvAt(states, steps, k);
    AddressedAt(states, steps, k);
    assert Addressed(s, t, SignalOne(e, RequestTermination));
    HandlingAsksIff(s, t, e);
    if e !in s.ended {
      assert Hosts(s.threads[t], e);
    }
  }
}
