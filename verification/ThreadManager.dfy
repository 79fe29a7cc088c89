/** Holder/ExecutionManager: named threads, the executors they host, and how threads are
    doomed and exit. Every region guarded by a mutex, and every private step of a thread, is
    one atomic step; the steps interleave freely. Every executor's Init succeeds. */
module ThreadManager {
  import opened Collections
  import Runs

  type ThreadID = nat
  type ExecutorID = nat
  type Name = string

  const EXEC_WILDCARD: nat := 0xffff_ffff

  datatype SignalType = WakeUp | RequestTermination

  /** targets: the thread's executors when the signal was posted, kept for the proofs. */
  datatype Instruction =
    | AddInstruction(exec: ExecutorID)
    | SignalOne(exec: ExecutorID, signal: SignalType)
    | SignalAll(signal: SignalType, targets: set<ExecutorID>)

  /** first: what the thread starts with, before it hosts it. leaving: executors that ended
      and are not yet out of the manager's map. exiting: the thread has left its loop. */
  datatype Thread = Thread(
    name: Name, singleton: bool, doomed: bool, instructions: seq<Instruction>,
    first: Option<ExecutorID>, executors: set<ExecutorID>, leaving: set<ExecutorID>, exiting: bool)

  /** accepted, ended, asked: histories, of executors accepted, gone, and asked to terminate. */
  datatype State = State(
    threads: map<ThreadID, Thread>, names: map<Name, ThreadID>, executorMap: map<ExecutorID, ThreadID>,
    nextThread: ThreadID, nextExec: ExecutorID, lockedShop: bool,
    accepted: set<ExecutorID>, ended: set<ExecutorID>, asked: set<ExecutorID>)

  const Start := State(map[], map[], map[], 0, 0, false, {}, {}, {})

  datatype Step =
    | AddExecutor(name: Name, singleton: bool)
    | DoomThread(name: Name)
    | SignalExecutor(exec: ExecutorID, signal: SignalType)
    | LockShop(sendTermination: bool)
    | HostFirst(t: ThreadID)
    | Handle(t: ThreadID)                               // the swapped-out instructions
    | EndSome(t: ThreadID, gone: set<ExecutorID>)       // one round of the thread's loop
    | RemoveExecutors(t: ThreadID)
    | LeaveLoop(t: ThreadID)
    | RemoveThread(t: ThreadID)

  // ----- the manager -----

  datatype AddResult = Accepted(exec: ExecutorID) | Refused | Thrown

  function AddOutcome(s: State, name: Name, singleton: bool): AddResult {
    if name == "" || s.nextExec == EXEC_WILDCARD - 1 then Thrown
    else if s.lockedShop then Refused
    else if name in s.names && s.names[name] in s.threads && (singleton || s.threads[s.names[name]].singleton) then Thrown
    else Accepted(s.nextExec)
  }

  function Posted(t: Thread, i: Instruction): Thread { t.(instructions := t.instructions + [i]) }

  function Added(s: State, name: Name, singleton: bool): State
    requires NamesLive(s)
  {
    var outcome := AddOutcome(s, name, singleton);
    if name == "" || s.nextExec == EXEC_WILDCARD - 1 || s.lockedShop then s
    else if outcome == Thrown then s.(nextExec := s.nextExec + 1)   // the ID is used up
    else
      var e := s.nextExec;
      var t := if name in s.names then s.names[name] else s.nextThread;
      var thread := if name in s.names then Posted(s.threads[t], AddInstruction(e))
                    else Thread(name, singleton, false, [], Some(e), {}, {}, false);
      s.(threads := s.threads[t := thread],
         names := s.names[name := t],
         nextThread := if name in s.names then s.nextThread else s.nextThread + 1,
         nextExec := e + 1, executorMap := s.executorMap[e := t], accepted := s.accepted + {e})
  }

  function ExecutorsOf(executorMap: map<ExecutorID, ThreadID>, t: ThreadID): set<ExecutorID> {
    set e | e in executorMap && executorMap[e] == t
  }

  function Doomed(s: State, sendTermination: bool): map<ThreadID, Thread> {
    map t | t in s.threads ::
      var doomed := s.threads[t].(doomed := true);
      if sendTermination then Posted(doomed, SignalAll(RequestTermination, ExecutorsOf(s.executorMap, t))) else doomed
  }

  // ----- a thread -----

  function Adds(q: seq<Instruction>): set<ExecutorID> {
    set i <- q | i.AddInstruction? :: i.exec
  }

  /** Who is asked to terminate, among the executors hosted. */
  function Asked(q: seq<Instruction>, hosted: set<ExecutorID>): set<ExecutorID> {
    set e | e in hosted && exists i <- q :: Asks(i, e)
  }

  predicate Asks(i: Instruction, e: ExecutorID) {
    || (i.SignalOne? && i.signal == RequestTermination && i.exec == e && e != EXEC_WILDCARD)
    || (i.SignalAll? && i.signal == RequestTermination)
  }

  /** A name leads to a live thread of that name that still takes executors. */
  predicate NamesLive(s: State) {
    forall n :: n in s.names ==>
      s.names[n] in s.threads && s.threads[s.names[n]].name == n && (s.threads[s.names[n]].doomed ==> s.lockedShop)
  }

  // ----- steps -----

  predicate Running(s: State, t: ThreadID) {
    t in s.threads && s.threads[t].first == None && s.threads[t].leaving == {} && !s.threads[t].exiting
  }

  predicate Enabled(s: State, step: Step) {
    match step
    case HostFirst(t) => t in s.threads && s.threads[t].first.Some?
    case Handle(t) => Running(s, t)
    case EndSome(t, gone) => Running(s, t) && gone != {} && gone <= s.threads[t].executors
    case RemoveExecutors(t) => t in s.threads && s.threads[t].leaving != {}
    case LeaveLoop(t) =>
      Running(s, t) && s.threads[t].instructions == [] && s.threads[t].executors == {} && s.threads[t].doomed
    case RemoveThread(t) => t in s.threads && s.threads[t].exiting
    case _ => true
  }

  function SetThread(s: State, t: ThreadID, thread: Thread): State { s.(threads := s.threads[t := thread]) }

  function Apply(s: State, step: Step): State
    requires NamesLive(s) && Enabled(s, step)
  {
    match step
    case AddExecutor(name, singleton) => Added(s, name, singleton)
    case DoomThread(name) =>
      if name in s.names then SetThread(s, s.names[name], s.threads[s.names[name]].(doomed := true)).(names := s.names - {name}) else s
    case SignalExecutor(e, signal) =>
      if e in s.executorMap && s.executorMap[e] in s.threads
      then SetThread(s, s.executorMap[e], Posted(s.threads[s.executorMap[e]], SignalOne(e, signal))) else s
    case LockShop(sendTermination) => s.(threads := Doomed(s, sendTermination), lockedShop := true)
    case HostFirst(t) =>
      SetThread(s, t, s.threads[t].(first := None, executors := {s.threads[t].first.value}))
    case Handle(t) =>
      var hosted := s.threads[t].executors + Adds(s.threads[t].instructions);
      SetThread(s, t, s.threads[t].(instructions := [], executors := hosted)).(asked := s.asked + Asked(s.threads[t].instructions, hosted))
    case EndSome(t, gone) =>
      SetThread(s, t, s.threads[t].(executors := s.threads[t].executors - gone, leaving := gone))
    case RemoveExecutors(t) =>
      var gone := s.threads[t].leaving;
      SetThread(s, t, s.threads[t].(leaving := {})).(executorMap := s.executorMap - gone, ended := s.ended + gone)
    case LeaveLoop(t) => SetThread(s, t, s.threads[t].(exiting := true))
    case RemoveThread(t) =>
      // the name's entry goes, whichever thread it names by now
      s.(threads := s.threads - {t}, names := s.names - {s.threads[t].name}, lockedShop := s.lockedShop || s.threads.Keys == {t})
  }

  // ----- the manager's methods -----

  class ExecutionManager {
    var threadMap: map<ThreadID, Thread>
    var threadNameMap: map<Name, ThreadID>
    var executorMap: map<ExecutorID, ThreadID>
    var nextThread: ThreadID
    var nextExec: ExecutorID
    var lockedShop: bool
    var threadsToJoin: seq<ThreadID>
    ghost var accepted: set<ExecutorID>
    ghost var ended: set<ExecutorID>
    ghost var asked: set<ExecutorID>

    ghost function Abstract(): State reads this {
      State(threadMap, threadNameMap, executorMap, nextThread, nextExec, lockedShop, accepted, ended, asked)
    }

    /** What the methods need; that every step also keeps Inv is StepKeepsInv. */
    ghost predicate Valid() reads this {
      NamesLive(Abstract()) && forall t :: t in threadMap ==> t < nextThread
    }

    constructor ()
      ensures Valid() && Abstract() == Start && threadsToJoin == []
    {
      threadMap, threadNameMap, executorMap, nextThread, nextExec, lockedShop, threadsToJoin := map[], map[], map[], 0, 0, false, [];
      accepted, ended, asked := {}, {}, {};
    }

    method AddExecutor(name: Name, isSingleton: bool) returns (result: AddResult)
      requires Valid()
      modifies this
      ensures Valid() && Abstract() == Apply(old(Abstract()), Step.AddExecutor(name, isSingleton))
      ensures result == AddOutcome(old(Abstract()), name, isSingleton)
      ensures threadsToJoin == old(threadsToJoin)
      ensures result == Thrown <==>
                || name == "" || old(nextExec) == 0xffff_fffe
                || (!old(lockedShop) && name in old(threadNameMap) && (isSingleton || old(threadMap)[old(threadNameMap)[name]].singleton))
      ensures result == Refused <==> name != "" && old(nextExec) != 0xffff_fffe && old(lockedShop)
      ensures !result.Accepted? ==> threadMap == old(threadMap) && threadNameMap == old(threadNameMap) && executorMap == old(executorMap)
      ensures result.Accepted? ==>
                var t := if name in old(threadNameMap) then old(threadNameMap)[name] else old(nextThread);
                && result.exec == old(nextExec) && nextExec == old(nextExec) + 1 && accepted == old(accepted) + {result.exec}
                && executorMap == old(executorMap)[result.exec := t] && threadNameMap == old(threadNameMap)[name := t]
                && threadMap == old(threadMap)[t :=
                     if name in old(threadNameMap)
                     then old(threadMap)[t].(instructions := old(threadMap)[t].instructions + [AddInstruction(result.exec)])
                     else Thread(name, isSingleton, false, [], Some(result.exec), {}, {}, false)]
    {
      if name == "" || nextExec == EXEC_WILDCARD - 1 {
        return Thrown;
      }
      if lockedShop {
        return Refused;
      }
      var execId := nextExec;
      nextExec := nextExec + 1;
      if name in threadNameMap && (isSingleton || threadMap[threadNameMap[name]].singleton) {
        return Thrown;
      }
      var threadId := PostOrStart(name, isSingleton, execId);
      ghost var hosted := Abstract();
      executorMap := executorMap[execId := threadId];
      accepted := accepted + {execId};
      assert Abstract() == hosted.(executorMap := executorMap, accepted := accepted);
      result := Accepted(execId);
    }

    /** Hand the executor to the thread of that name, or to a new one. */
    method PostOrStart(name: Name, isSingleton: bool, execId: ExecutorID) returns (threadId: ThreadID)
      requires Valid()
      modifies this`threadMap, this`threadNameMap, this`nextThread
      ensures Valid()
      ensures threadId == if name in old(threadNameMap) then old(threadNameMap)[name] else old(nextThread)
      ensures threadMap == old(threadMap)[threadId := if name in old(threadNameMap) then old(threadMap)[threadId].(instructions := old(threadMap)[threadId].instructions + [AddInstruction(execId)])
                                                      else Thread(name, isSingleton, false, [], Some(execId), {}, {}, false)]
      ensures threadNameMap == old(threadNameMap)[name := threadId]
      ensures nextThread == if name in old(threadNameMap) then old(nextThread) else old(nextThread) + 1
    {
      if name in threadNameMap {
        threadId := threadNameMap[name];
        threadMap := threadMap[threadId := Posted(threadMap[threadId], AddInstruction(execId))];
        assert threadNameMap == threadNameMap[name := threadId];
      } else {
        threadId := nextThread;
        nextThread := nextThread + 1;
        threadMap := threadMap[threadId := Thread(name, isSingleton, false, [], Some(execId), {}, {}, false)];
        threadNameMap := threadNameMap[name := threadId];
      }
    }

    method DoomThread(name: Name)
      requires Valid()
      modifies this`threadMap, this`threadNameMap
      ensures Valid() && Abstract() == Apply(old(Abstract()), Step.DoomThread(name))
      ensures threadNameMap == old(threadNameMap) - {name}
      ensures name !in old(threadNameMap) ==> threadMap == old(threadMap)
      ensures name in old(threadNameMap) ==>
                var t := old(threadNameMap)[name]; threadMap == old(threadMap)[t := old(threadMap)[t].(doomed := true)]
    {
      if name in threadNameMap {
        var threadId := threadNameMap[name];
        threadMap := threadMap[threadId := threadMap[threadId].(doomed := true)];
        threadNameMap := threadNameMap - {name};
      }
    }

    method SignalExecutor(execId: ExecutorID, signal: SignalType) returns (found: bool)
      requires Valid() && Placed(Abstract())
      modifies this`threadMap
      ensures Valid() && Abstract() == Apply(old(Abstract()), Step.SignalExecutor(execId, signal))
      ensures found <==> execId in executorMap
      ensures !found ==> threadMap == old(threadMap)
      ensures found ==>
                var t := executorMap[execId];
                threadMap == old(threadMap)[t := old(threadMap)[t].(instructions := old(threadMap)[t].instructions + [SignalOne(execId, signal)])]
    {
      found := execId in executorMap;
      if found {
        var threadId := executorMap[execId];
        threadMap := threadMap[threadId := Posted(threadMap[threadId], SignalOne(execId, signal))];
      }
    }

    method LockShop(sendTermination: bool)
      requires Valid()
      modifies this`threadMap, this`lockedShop
      ensures Valid() && Abstract() == Apply(old(Abstract()), Step.LockShop(sendTermination))
      ensures lockedShop && AllDoomed(sendTermination)
    {
      DoomAll(sendTermination);
      lockedShop := true;
    }

    /** Every thread is doomed, and on request asked to terminate all its executors. */
    twostate predicate AllDoomed(sendTermination: bool) reads this {
      && threadMap.Keys == old(threadMap).Keys
      && forall t :: t in threadMap ==>
           var asked := SignalAll(RequestTermination, set e | e in executorMap && executorMap[e] == t);
           threadMap[t] == old(threadMap)[t].(doomed := true,
                                              instructions := old(threadMap)[t].instructions + if sendTermination then [asked] else [])
    }

    method DoomAll(sendTermination: bool)
      modifies this`threadMap
      ensures threadMap == Doomed(old(Abstract()), sendTermination)
      ensures AllDoomed(sendTermination)
    {
      ghost var before := threadMap;
      ghost var doomed := Doomed(Abstract(), sendTermination);
      var rest := threadMap.Keys;
      while rest != {}
        invariant rest <= threadMap.Keys == before.Keys
        invariant forall t :: t in threadMap ==> threadMap[t] == if t in rest then before[t] else doomed[t]
        decreases rest
      {
        var t :| t in rest;
        var thread := threadMap[t].(doomed := true);
        if sendTermination {
          thread := Posted(thread, SignalAll(RequestTermination, ExecutorsOf(executorMap, t)));
        }
        threadMap := threadMap[t := thread];
        rest := rest - {t};
      }
    }

    /** Called by a thread, for the executors that ended in its last round. */
    method RemoveExecutors(t: ThreadID, toRemove: seq<ExecutorID>)
      requires Valid() && Enabled(Abstract(), Step.RemoveExecutors(t)) && threadMap[t].leaving == set e <- toRemove
      modifies this`threadMap, this`executorMap, this`ended
      ensures Valid() && Abstract() == Apply(old(Abstract()), Step.RemoveExecutors(t))
      ensures executorMap == old(executorMap) - (set e <- toRemove)
    {
      var k := 0;
      while k < |toRemove|
        invariant k <= |toRemove| && threadMap == old(threadMap) && ended == old(ended)
        invariant executorMap == old(executorMap) - set e <- toRemove[..k]
      {
        assert toRemove[..k + 1] == toRemove[..k] + [toRemove[k]];
        executorMap := executorMap - {toRemove[k]};
        k := k + 1;
      }
      assert toRemove[..k] == toRemove;
      ended := ended + threadMap[t].leaving;
      threadMap := threadMap[t := threadMap[t].(leaving := {})];
    }

    method RemoveThread(t: ThreadID)
      requires Valid() && Enabled(Abstract(), Step.RemoveThread(t))
      modifies this
      ensures Valid() && Abstract() == Apply(old(Abstract()), Step.RemoveThread(t))
      ensures threadMap == old(threadMap) - {t} && threadNameMap == old(threadNameMap) - {old(threadMap)[t].name}
      ensures lockedShop <==> old(lockedShop) || threadMap == map[]
      ensures threadsToJoin == old(threadsToJoin) + [t]
    {
      var thread := threadMap[t];
      threadMap := threadMap - {t};
      threadNameMap := threadNameMap - {thread.name};
      threadsToJoin := threadsToJoin + [t];
      assert old(threadMap).Keys == threadMap.Keys + {t};
      if threadMap == map[] {
        lockedShop := true;
      }
    }
  }

  // ----- the invariant -----

  predicate Hosts(thread: Thread, e: ExecutorID) {
    thread.first == Some(e) || e in thread.executors || e in thread.leaving || AddInstruction(e) in thread.instructions
  }

  /** An accepted executor is with exactly the thread the map names, until it has ended. */
  ghost predicate Placed(s: State) {
    && (forall e {:trigger s.executorMap[e]} {:trigger e in s.executorMap} :: e in s.executorMap ==> s.executorMap[e] in s.threads && Hosts(s.threads[s.executorMap[e]], e))
    && (forall t, e {:trigger Hosts(s.threads[t], e)} :: t in s.threads && Hosts(s.threads[t], e) ==> e in s.executorMap && s.executorMap[e] == t)
  }

  ghost predicate ThreadOk(thread: Thread) {
    && (thread.first.Some? ==> thread.executors == {} && thread.leaving == {} && !thread.exiting)
    && (thread.exiting ==> thread.doomed && thread.executors == {} && thread.leaving == {} && Adds(thread.instructions) == {})
    && thread.executors !! thread.leaving && Adds(thread.instructions) !! thread.executors + thread.leaving
    && (thread.first.Some? ==> thread.first.value !in Adds(thread.instructions))
  }

  /** Whoever a signal to all was meant for, and is still accepted, is there or comes first. */
  ghost predicate SignalOk(s: State, t: ThreadID, k: nat)
    requires t in s.threads && k < |s.threads[t].instructions|
  {
    var thread := s.threads[t];
    thread.instructions[k].SignalAll? ==>
      && thread.instructions[k].targets <= s.accepted
      && forall e :: e in thread.instructions[k].targets && e in s.executorMap ==>
        || thread.first == Some(e) || e in thread.executors || e in thread.leaving
        || AddInstruction(e) in thread.instructions[..k]
  }

  ghost predicate Inv(s: State) {
    && NamesLive(s) && Placed(s)
    && (forall t {:trigger s.threads[t]} {:trigger t in s.threads} :: t in s.threads ==> t < s.nextThread && ThreadOk(s.threads[t]))
    && s.accepted == s.executorMap.Keys + s.ended && s.executorMap.Keys !! s.ended
    && (forall e :: e in s.accepted ==> e < s.nextExec)
    && (forall t, k {:trigger SignalOk(s, t, k)} :: t in s.threads && 0 <= k < |s.threads[t].instructions| ==> SignalOk(s, t, k))
    && s.nextExec < EXEC_WILDCARD
  }

  // ----- every step keeps it -----

  ghost predicate SignalsOk(s: State, t: ThreadID)
    requires t in s.threads
  {
    forall k {:trigger SignalOk(s, t, k)} :: 0 <= k < |s.threads[t].instructions| ==> SignalOk(s, t, k)
  }

  /** A thread that changes, but neither in what it hosts nor in its name. */
  lemma ThreadKept(s: State, t: ThreadID, x: Thread)
    requires Inv(s) && t in s.threads && ThreadOk(x) && SignalsOk(SetThread(s, t, x), t)
    requires x.name == s.threads[t].name && x.doomed == s.threads[t].doomed
    requires forall e {:trigger Hosts(x, e)} {:trigger Hosts(s.threads[t], e)} :: Hosts(x, e) <==> Hosts(s.threads[t], e)
    ensures Inv(SetThread(s, t, x))
  {
    var s' := SetThread(s, t, x);
    forall u, e | u in s'.threads && Hosts(s'.threads[u], e) ensures e in s'.executorMap && s'.executorMap[e] == u {
      assert Hosts(s.threads[u], e);
    }
    forall e | e in s'.executorMap ensures s'.executorMap[e] in s'.threads && Hosts(s'.threads[s'.executorMap[e]], e) {
      assert Hosts(s.threads[s.executorMap[e]], e);
    }
    forall u, k | u in s'.threads && 0 <= k < |s'.threads[u].instructions| ensures SignalOk(s', u, k) {
      assert u != t ==> SignalOk(s, u, k);
    }
  }

  lemma SignalKeeps(s: State, e: ExecutorID, signal: SignalType)
    requires Inv(s)
    ensures Inv(Apply(s, SignalExecutor(e, signal)))
  {
    if e in s.executorMap {
      var t := s.executorMap[e];
      var x := Posted(s.threads[t], SignalOne(e, signal));
      PostKeepsSignals(s, t, SignalOne(e, signal));
      ThreadKept(s, t, x);
    }
  }

  /** Posting anything that is no signal to all. */
  lemma PostKeepsSignals(s: State, t: ThreadID, i: Instruction)
    requires Inv(s) && t in s.threads && !i.SignalAll?
    ensures SignalsOk(SetThread(s, t, Posted(s.threads[t], i)), t)
  {
    var q := s.threads[t].instructions;
    var s' := SetThread(s, t, Posted(s.threads[t], i));
    forall k | 0 <= k < |q| + 1 ensures SignalOk(s', t, k) {
      if k < |q| {
        assert SignalOk(s, t, k) && (q + [i])[..k] == q[..k];
      }
    }
  }

  lemma HostFirstKeeps(s: State, t: ThreadID)
    requires Inv(s) && Enabled(s, HostFirst(t))
    ensures Inv(Apply(s, HostFirst(t)))
  {
    var x := s.threads[t].(first := None, executors := {s.threads[t].first.value});
    var s' := SetThread(s, t, x);
    forall k | 0 <= k < |x.instructions| ensures SignalOk(s', t, k) {
      assert SignalOk(s, t, k);
    }
    ThreadKept(s, t, x);
  }

  lemma AddsIn(q: seq<Instruction>, e: ExecutorID)
    ensures e in Adds(q) <==> AddInstruction(e) in q
  {
    if AddInstruction(e) in q {
      var i := AddInstruction(e);
      assert i in q && i.AddInstruction? && i.exec == e;
    }
  }

  lemma HandleKeeps(s: State, t: ThreadID)
    requires Inv(s) && Enabled(s, Handle(t))
    ensures Inv(Apply(s, Handle(t)))
  {
    var q := s.threads[t].instructions;
    var x := s.threads[t].(instructions := [], executors := s.threads[t].executors + Adds(q));
    forall e ensures Hosts(x, e) <==> Hosts(s.threads[t], e) {
      AddsIn(q, e);
    }
    ThreadKept(s, t, x);
    var s' := SetThread(s, t, x);
    AskedKeeps(s', s'.(asked := s'.asked + Asked(q, x.executors)));
  }

  lemma AskedKeeps(s: State, s': State)
    requires Inv(s) && s' == s.(asked := s'.asked)
    ensures Inv(s')
  {
    forall t, k | t in s'.threads && 0 <= k < |s'.threads[t].instructions| ensures SignalOk(s', t, k) {
      assert SignalOk(s, t, k);
    }
  }

  lemma EndSomeKeeps(s: State, t: ThreadID, gone: set<ExecutorID>)
    requires Inv(s) && Enabled(s, EndSome(t, gone))
    ensures Inv(Apply(s, EndSome(t, gone)))
  {
    var x := s.threads[t].(executors := s.threads[t].executors - gone, leaving := gone);
    var s' := SetThread(s, t, x);
    forall k | 0 <= k < |x.instructions| ensures SignalOk(s', t, k) {
      assert SignalOk(s, t, k);
    }
    ThreadKept(s, t, x);
  }

  lemma LeaveLoopKeeps(s: State, t: ThreadID)
    requires Inv(s) && Enabled(s, LeaveLoop(t))
    ensures Inv(Apply(s, LeaveLoop(t)))
  {
    ThreadKept(s, t, s.threads[t].(exiting := true));
  }

  lemma LeavingOnly(thread: Thread, e: ExecutorID)
    requires ThreadOk(thread) && e in thread.leaving
    ensures !Hosts(thread.(leaving := {}), e)
  {
    AddsIn(thread.instructions, e);
    assert e in thread.executors + thread.leaving;
  }

  lemma RemoveExecutorsKeeps(s: State, t: ThreadID)
    requires Inv(s) && Enabled(s, RemoveExecutors(t))
    ensures Inv(Apply(s, RemoveExecutors(t)))
  {
    var s' := Apply(s, RemoveExecutors(t));
    var gone := s.threads[t].leaving;
    forall e | e in gone ensures e in s.executorMap && s.executorMap[e] == t {
      assert Hosts(s.threads[t], e);
    }
    forall e | e in s'.executorMap ensures s'.executorMap[e] in s'.threads && Hosts(s'.threads[s'.executorMap[e]], e) {
      assert Hosts(s.threads[s.executorMap[e]], e);
    }
    assert s'.threads[t] == s.threads[t].(leaving := {});
    forall e | e in gone ensures !Hosts(s'.threads[t], e) {
      LeavingOnly(s.threads[t], e);
    }
    forall u, e | u in s'.threads && Hosts(s'.threads[u], e) ensures e in s'.executorMap && s'.executorMap[e] == u {
      assert Hosts(s.threads[u], e);
    }
    forall u, k | u in s'.threads && 0 <= k < |s'.threads[u].instructions| ensures SignalOk(s', u, k) {
      assert SignalOk(s, u, k);
    }
  }

  lemma DoomKeeps(s: State, name: Name)
    requires Inv(s)
    ensures Inv(Apply(s, DoomThread(name)))
  {
    if name in s.names {
      var t := s.names[name];
      var s' := Apply(s, DoomThread(name));
      forall u, e | u in s'.threads && Hosts(s'.threads[u], e) ensures e in s'.executorMap && s'.executorMap[e] == u {
        assert Hosts(s.threads[u], e);
      }
      forall e | e in s'.executorMap ensures s'.executorMap[e] in s'.threads && Hosts(s'.threads[s'.executorMap[e]], e) {
        assert Hosts(s.threads[s.executorMap[e]], e);
      }
      forall u, k | u in s'.threads && 0 <= k < |s'.threads[u].instructions| ensures SignalOk(s', u, k) {
        assert SignalOk(s, u, k);
      }
    }
  }

  lemma LockShopKeeps(s: State, sendTermination: bool)
    requires Inv(s)
    ensures Inv(Apply(s, LockShop(sendTermination)))
  {
    var s' := Apply(s, LockShop(sendTermination));
    forall u, e | u in s'.threads ensures Hosts(s'.threads[u], e) <==> Hosts(s.threads[u], e) {
    }
    forall e | e in s'.executorMap ensures s'.executorMap[e] in s'.threads && Hosts(s'.threads[s'.executorMap[e]], e) {
      assert Hosts(s.threads[s.executorMap[e]], e);
    }
    forall u | u in s'.threads ensures u < s'.nextThread && ThreadOk(s'.threads[u]) && SignalsOk(s', u) {
      LockedThreadOk(s, u, sendTermination);
    }
  }

  lemma LockedThreadOk(s: State, u: ThreadID, sendTermination: bool)
    requires Inv(s) && u in s.threads
    ensures var s' := Apply(s, LockShop(sendTermination)); ThreadOk(s'.threads[u]) && SignalsOk(s', u)
  {
    var s' := Apply(s, LockShop(sendTermination));
    var q, q' := s.threads[u].instructions, s'.threads[u].instructions;
    assert ThreadOk(s.threads[u]);
    forall e ensures e in Adds(q') <==> e in Adds(q) {
      AddsIn(q, e);
      AddsIn(q', e);
    }
    forall k | 0 <= k < |q'| ensures SignalOk(s', u, k) {
      if k < |q| {
        assert SignalOk(s, u, k) && q'[..k] == q[..k];
      } else {
        forall e | e in ExecutorsOf(s.executorMap, u) ensures Hosts(s.threads[u], e) {
          assert e in s.executorMap;
        }
        assert q'[..k] == q;
      }
    }
  }

  lemma FreshExecutor(s: State)
    requires Inv(s)
    ensures s.nextExec !in s.executorMap && s.nextExec !in s.accepted
    ensures forall t :: t in s.threads ==> !Hosts(s.threads[t], s.nextExec)
  {
    forall t | t in s.threads ensures !Hosts(s.threads[t], s.nextExec) {
    }
  }

  lemma AddKeeps(s: State, name: Name, singleton: bool)
    requires Inv(s)
    ensures Inv(Added(s, name, singleton))
  {
    if AddOutcome(s, name, singleton).Accepted? {
      var s' := Added(s, name, singleton);
      FreshExecutor(s);
      AddedPlaced(s, name, singleton);
      AddedThreads(s, name, singleton);
      forall u, k | u in s'.threads && 0 <= k < |s'.threads[u].instructions| ensures SignalOk(s', u, k) {
        AddedSignalOk(s, name, singleton, u, k);
      }
    } else {
      OnlyIdUsed(s, Added(s, name, singleton));
    }
  }

  lemma AddedThreads(s: State, name: Name, singleton: bool)
    requires Inv(s) && AddOutcome(s, name, singleton).Accepted?
    ensures var s' := Added(s, name, singleton);
            NamesLive(s') && forall u :: u in s'.threads ==> u < s'.nextThread && ThreadOk(s'.threads[u])
  {
    FreshExecutor(s);
    if name in s.names { AddedThreadOk(s, s.names[name], s.nextExec); }
  }

  lemma AddedPlaced(s: State, name: Name, singleton: bool)
    requires Inv(s) && AddOutcome(s, name, singleton).Accepted?
    ensures Placed(Added(s, name, singleton))
  {
    var e := s.nextExec;
    var s' := Added(s, name, singleton);
    FreshExecutor(s);
    forall u, d | u in s'.threads ensures Hosts(s'.threads[u], d) <==> (if d == e then s'.executorMap[e] == u else u in s.threads && Hosts(s.threads[u], d)) {
    }
    forall d | d in s'.executorMap ensures s'.executorMap[d] in s'.threads && Hosts(s'.threads[s'.executorMap[d]], d) {
      assert d != e ==> Hosts(s.threads[s.executorMap[d]], d);
    }
  }

  lemma AddedSignalOk(s: State, name: Name, singleton: bool, u: ThreadID, k: nat)
    requires Inv(s) && AddOutcome(s, name, singleton).Accepted?
    requires var s' := Added(s, name, singleton); u in s'.threads && k < |s'.threads[u].instructions|
    ensures SignalOk(Added(s, name, singleton), u, k)
  {
    var s' := Added(s, name, singleton);
    if u in s.threads && k < |s.threads[u].instructions| {
      assert SignalOk(s, u, k);
      assert s'.threads[u].instructions[..k] == s.threads[u].instructions[..k];
      FreshExecutor(s);
    }
  }

  lemma OnlyIdUsed(s: State, s': State)
    requires Inv(s) && s' == s.(nextExec := s'.nextExec) && s.nextExec <= s'.nextExec < EXEC_WILDCARD
    ensures Inv(s')
  {
    forall t, k | t in s'.threads && 0 <= k < |s'.threads[t].instructions| ensures SignalOk(s', t, k) {
      assert SignalOk(s, t, k);
    }
  }

  lemma AddedThreadOk(s: State, t: ThreadID, e: ExecutorID)
    requires t in s.threads && ThreadOk(s.threads[t]) && !s.threads[t].exiting && !Hosts(s.threads[t], e)
    ensures ThreadOk(Posted(s.threads[t], AddInstruction(e)))
  {
    var q := s.threads[t].instructions;
    forall d ensures d in Adds(q + [AddInstruction(e)]) <==> d in Adds(q) || d == e {
      AddsIn(q, d);
      AddsIn(q + [AddInstruction(e)], d);
    }
  }

  lemma RemoveThreadKeeps(s: State, t: ThreadID)
    requires Inv(s) && Enabled(s, RemoveThread(t))
    ensures Inv(Apply(s, RemoveThread(t)))
  {
    var s' := Apply(s, RemoveThread(t));
    forall e ensures !Hosts(s.threads[t], e) {
      AddsIn(s.threads[t].instructions, e);
    }
    forall e | e in s'.executorMap ensures s'.executorMap[e] in s'.threads && Hosts(s'.threads[s'.executorMap[e]], e) {
      assert Hosts(s.threads[s.executorMap[e]], e);
    }
    forall u, e | u in s'.threads && Hosts(s'.threads[u], e) ensures e in s'.executorMap && s'.executorMap[e] == u {
      assert Hosts(s.threads[u], e);
    }
    forall u, k | u in s'.threads && 0 <= k < |s'.threads[u].instructions| ensures SignalOk(s', u, k) {
      assert SignalOk(s, u, k);
    }
  }

  lemma StepKeepsInv(s: State, step: Step)
    requires Inv(s) && Enabled(s, step)
    ensures Inv(Apply(s, step))
  {
    match step
    case AddExecutor(name, singleton) => AddKeeps(s, name, singleton);
    case DoomThread(name) => DoomKeeps(s, name);
    case SignalExecutor(e, signal) => SignalKeeps(s, e, signal);
    case LockShop(sendTermination) => LockShopKeeps(s, sendTermination);
    case HostFirst(t) => HostFirstKeeps(s, t);
    case Handle(t) => HandleKeeps(s, t);
    case EndSome(t, gone) => EndSomeKeeps(s, t, gone);
    case RemoveExecutors(t) => RemoveExecutorsKeeps(s, t);
    case LeaveLoop(t) => LeaveLoopKeeps(s, t);
    case RemoveThread(t) => RemoveThreadKeeps(s, t);
  }

  // ----- every run -----

  ghost predicate Initial(s: State) { s == Start }

  ghost predicate Moves(s: State, step: Step, s': State) { NamesLive(s) && Enabled(s, step) && s' == Apply(s, step) }

  ghost predicate Reachable(s: State) { Runs.Reachable(Initial, Moves, s) }

  lemma ReachableInv(s: State)
    requires Reachable(s)
    ensures Inv(s)
  {
    forall s: State, step: Step, s': State | Inv(s) && Moves(s, step, s') ensures Inv(s') {
      StepKeepsInv(s, step);
    }
    Runs.ReachableKeeps(Initial, Moves, Inv, s);
  }

  /** In every run each executor accepted has ended or is with one live thread, the one the
      manager would signal. */
  lemma NoExecutorLost(s: State, e: ExecutorID)
    requires Reachable(s) && e in s.accepted
    ensures e in s.ended <==> e !in s.executorMap
    ensures e !in s.ended ==>
              && s.executorMap[e] in s.threads && !s.threads[s.executorMap[e]].exiting
              && forall t :: t in s.threads ==> (Hosts(s.threads[t], e) <==> t == s.executorMap[e])
  {
    ReachableInv(s);
    if e !in s.ended {
      var t := s.executorMap[e];
      assert Hosts(s.threads[t], e) && ThreadOk(s.threads[t]);
      AddsIn(s.threads[t].instructions, e);
    }
  }

  /** A thread that leaves its loop is doomed for good: nothing it hosts is left, and no
      executor can be added to it any more. */
  lemma ExitLosesNothing(s: State, t: ThreadID)
    requires Reachable(s) && t in s.threads && s.threads[t].exiting
    ensures s.threads[t].doomed && ExecutorsOf(s.executorMap, t) == {} && (forall e :: !Hosts(s.threads[t], e))
    ensures forall name, singleton :: AddOutcome(s, name, singleton).Accepted? ==> name !in s.names || s.names[name] != t
  {
    ReachableInv(s);
    assert forall e :: e in ExecutorsOf(s.executorMap, t) ==> Hosts(s.threads[t], e);
    forall e ensures !Hosts(s.threads[t], e) {
      AddsIn(s.threads[t].instructions, e);
    }
  }

  /** Additions are handled before signals, whatever their order in the list. So exactly those
      are asked to terminate that are hosted or added, and named by a request or meant by one
      to all. */
  lemma HandlingAsksIff(s: State, t: ThreadID, e: ExecutorID)
    requires NamesLive(s) && Enabled(s, Handle(t))
    ensures var q := s.threads[t].instructions;
            e in Apply(s, Handle(t)).asked <==>
              || e in s.asked
              || ((e in s.threads[t].executors || AddInstruction(e) in q)
                  && ((SignalOne(e, RequestTermination) in q && e != 0xffff_ffff) || exists i <- q :: i.SignalAll? && i.signal == RequestTermination))
  {
    var q := s.threads[t].instructions;
    AddsIn(q, e);
    var one := SignalOne(e, RequestTermination);
    assert one in q && e != EXEC_WILDCARD ==> Asks(one, e);
    if i :| i in q && Asks(i, e) {
      assert i.SignalOne? ==> i == one;
    }
    if i :| i in q && i.SignalAll? && i.signal == RequestTermination {
      assert Asks(i, e);
    }
  }

  /** A request to all, once handled, has reached every executor of the thread that was
      accepted before it was posted and has not ended. */
  lemma SendToAllReachesEveryone(s: State, t: ThreadID, k: nat)
    requires Reachable(s) && Enabled(s, Handle(t)) && k < |s.threads[t].instructions|
    requires s.threads[t].instructions[k].SignalAll? && s.threads[t].instructions[k].signal == RequestTermination
    ensures NamesLive(s)
    ensures forall e :: e in s.threads[t].instructions[k].targets && e !in s.ended ==> e in Apply(s, Handle(t)).asked
  {
    ReachableInv(s);
    var q := s.threads[t].instructions;
    assert SignalOk(s, t, k);
    forall e | e in q[k].targets && e !in s.ended ensures e in Apply(s, Handle(t)).asked {
      AddsIn(q, e);
      assert q[k] in q && Asks(q[k], e);
    }
  }

  /** Locking up with a request posts it to every executor accepted and not ended. */
  lemma LockShopTargetsEveryone(s: State, e: ExecutorID)
    requires Reachable(s) && e in s.executorMap
    ensures NamesLive(s)
    ensures var s' := Apply(s, LockShop(true));
            var t := s.executorMap[e];
            && t in s'.threads && s'.threads[t].instructions != []
            && var last := s'.threads[t].instructions[|s'.threads[t].instructions| - 1];
               last.SignalAll? && last.signal == RequestTermination && e in last.targets
  {
    ReachableInv(s);
  }

  /** What RunLoop waits for: nothing accepted is still to end, and nothing will be accepted. */
  lemma ShutdownIsComplete(s: State)
    requires Reachable(s) && s.lockedShop && s.threads == map[]
    ensures s.accepted == s.ended
    ensures forall name, singleton :: !AddOutcome(s, name, singleton).Accepted?
  {
    ReachableInv(s);
    assert s.executorMap.Keys == {};
  }

  // ----- names -----

  /** Every thread that may still take executors can be found by its name. */
  ghost predicate AllNamed(s: State) {
    forall t :: t in s.threads && !s.threads[t].doomed ==> s.threads[t].name in s.names && s.names[s.threads[t].name] == t
  }

  /** A thread that exits takes along the name, even if a later thread bears it by now. */
  predicate UnnamesSuccessor(s: State, step: Step) {
    && step.RemoveThread? && step.t in s.threads
    && s.threads[step.t].name in s.names
    && var heir := s.names[s.threads[step.t].name];
       heir != step.t && heir in s.threads && !s.threads[heir].doomed
  }

  lemma StepKeepsNamesIff(s: State, step: Step)
    requires Inv(s) && AllNamed(s) && Enabled(s, step)
    ensures AllNamed(Apply(s, step)) <==> !UnnamesSuccessor(s, step)
  {
    var s' := Apply(s, step);
    if UnnamesSuccessor(s, step) {
      var heir := s.names[s.threads[step.t].name];
      assert heir in s'.threads && s'.threads[heir].name !in s'.names;
    } else {
      forall t | t in s'.threads && !s'.threads[t].doomed ensures s'.threads[t].name in s'.names && s'.names[s'.threads[t].name] == t {
        assert t in s.threads ==> !s.threads[t].doomed && s'.threads[t].name == s.threads[t].name;
      }
    }
  }

  function Worker(first: Option<ExecutorID>, doomed: bool, executors: set<ExecutorID>, leaving: set<ExecutorID>, exiting: bool): Thread {
    Thread("worker", false, doomed, [], first, executors, leaving, exiting)
  }

  /** A thread is doomed, its name given to a new thread, and then the first one exits: the
      new one, not doomed, can no longer be found. */
  lemma SuccessorLosesItsName() returns (s: State)
    ensures Reachable(s) && !s.lockedShop && s.names == map[] && 1 in s.threads && !s.threads[1].doomed
  {
    Runs.InitialIsReachable<State, Step>(Initial, Moves, Start);
    var s1 := State(map[0 := Worker(Some(0), false, {}, {}, false)], map["worker" := 0], map[0 := 0], 1, 1, false, {0}, {}, {});
    assert Moves(Start, AddExecutor("worker", false), s1);
    Runs.NextIsReachable(Initial, Moves, Start, AddExecutor("worker", false), s1);
    var s2 := State(map[0 := Worker(Some(0), true, {}, {}, false)], map[], map[0 := 0], 1, 1, false, {0}, {}, {});
    assert Moves(s1, DoomThread("worker"), s2);
    Runs.NextIsReachable(Initial, Moves, s1, DoomThread("worker"), s2);
    s := HeirComes(s2);
  }

  lemma HeirComes(s2: State) returns (s: State)
    requires Reachable(s2)
    requires s2 == State(map[0 := Worker(Some(0), true, {}, {}, false)], map[], map[0 := 0], 1, 1, false, {0}, {}, {})
    ensures Reachable(s) && !s.lockedShop && s.names == map[] && 1 in s.threads && !s.threads[1].doomed
  {
    var heir := Worker(Some(1), false, {}, {}, false);
    var s3 := State(map[0 := Worker(Some(0), true, {}, {}, false), 1 := heir], map["worker" := 1], map[0 := 0, 1 := 1], 2, 2, false, {0, 1}, {}, {});
    assert Moves(s2, AddExecutor("worker", false), s3);
    Runs.NextIsReachable(Initial, Moves, s2, AddExecutor("worker", false), s3);
    var s4 := s3.(threads := map[0 := Worker(None, true, {0}, {}, false), 1 := heir]);
    assert Moves(s3, HostFirst(0), s4);
    Runs.NextIsReachable(Initial, Moves, s3, HostFirst(0), s4);
    s := FirstExits(s4);
  }

  lemma FirstExits(s4: State) returns (s: State)
    requires Reachable(s4)
    requires s4 == State(map[0 := Worker(None, true, {0}, {}, false), 1 := Worker(Some(1), false, {}, {}, false)],
                         map["worker" := 1], map[0 := 0, 1 := 1], 2, 2, false, {0, 1}, {}, {})
    ensures Reachable(s) && !s.lockedShop && s.names == map[] && 1 in s.threads && !s.threads[1].doomed
  {
    var heir := Worker(Some(1), false, {}, {}, false);
    var s5 := s4.(threads := map[0 := Worker(None, true, {}, {0}, false), 1 := heir]);
    assert Moves(s4, EndSome(0, {0}), s5) by {
      assert {0} - {0} == {};
      assert s4.threads[0 := s5.threads[0]] == s5.threads;
    }
    Runs.NextIsReachable(Initial, Moves, s4, EndSome(0, {0}), s5);
    var s6 := s5.(threads := map[0 := Worker(None, true, {}, {}, false), 1 := heir], executorMap := map[1 := 1], ended := {0});
    assert Moves(s5, RemoveExecutors(0), s6) by {
      assert s5.executorMap - {0} == map[1 := 1] && {} + {0} == {0};
      assert s5.threads[0 := s6.threads[0]] == s6.threads;
    }
    Runs.NextIsReachable(Initial, Moves, s5, RemoveExecutors(0), s6);
    s := FirstLeaves(s6);
  }

  lemma FirstLeaves(s6: State) returns (s: State)
    requires Reachable(s6)
    requires s6 == State(map[0 := Worker(None, true, {}, {}, false), 1 := Worker(Some(1), false, {}, {}, false)],
                         map["worker" := 1], map[1 := 1], 2, 2, false, {0, 1}, {0}, {})
    ensures Reachable(s) && !s.lockedShop && s.names == map[] && 1 in s.threads && !s.threads[1].doomed
  {
    var heir := Worker(Some(1), false, {}, {}, false);
    var s7 := s6.(threads := map[0 := Worker(None, true, {}, {}, true), 1 := heir]);
    assert Moves(s6, LeaveLoop(0), s7) by {
      assert s6.threads[0 := s7.threads[0]] == s7.threads;
    }
    Runs.NextIsReachable(Initial, Moves, s6, LeaveLoop(0), s7);
    s := s7.(threads := map[1 := heir], names := map[]);
    assert Moves(s7, RemoveThread(0), s) by {
      assert s7.threads - {0} == s.threads && s7.names - {"worker"} == map[];
      assert 1 in s7.threads.Keys;
    }
    Runs.NextIsReachable(Initial, Moves, s7, RemoveThread(0), s);
  }
}
