/** Holder/ExecutionManager: the executors one thread hosts, their index by ID, and the count
    of those that want to run. Only the thread itself touches any of it. */
module ExecutorThread {

  type ExecutorID = x: int | 0 <= x < 0x1_0000_0000 witness 0

  const EXEC_WILDCARD: ExecutorID := 0xffff_ffff

  datatype StateTag = Executing | Suspended
  datatype SignalType = WakeUp | RequestTermination

  datatype ExecutorState = ExecutorState(execId: ExecutorID, stateTag: StateTag)

  /** What an executor's Run answers. */
  datatype Answer = Continue | Suspend | End

  function CountExecuting(execs: seq<ExecutorState>): nat {
    if execs == [] then 0
    else CountExecuting(execs[..|execs| - 1]) + (if execs[|execs| - 1].stateTag == Executing then 1 else 0)
  }

  function Ids(execs: seq<ExecutorState>): set<ExecutorID> { set e <- execs :: e.execId }

  ghost predicate Distinct(execs: seq<ExecutorState>) {
    forall i, j :: 0 <= i < j < |execs| ==> execs[i].execId != execs[j].execId
  }

  /** The signal map is the exact inverse of the array of executors. */
  ghost predicate Inverse(execs: seq<ExecutorState>, index: map<ExecutorID, nat>) {
    && (forall i {:trigger execs[i]} :: 0 <= i < |execs| ==> execs[i].execId in index && index[execs[i].execId] == i)
    && (forall e {:trigger index[e]} :: e in index ==> index[e] < |execs| && execs[index[e]].execId == e)
  }

  lemma InverseIsDistinct(execs: seq<ExecutorState>, index: map<ExecutorID, nat>)
    requires Inverse(execs, index)
    ensures Distinct(execs) && index.Keys == Ids(execs)
  {
    forall e | e in index ensures e in Ids(execs) {
      assert execs[index[e]] in execs;
    }
  }

  // ----- counting -----

  lemma {:induction false} CountUpdate(execs: seq<ExecutorState>, i: nat, e: ExecutorState)
    requires i < |execs|
    ensures CountExecuting(execs[i := e]) ==
            CountExecuting(execs) - (if execs[i].stateTag == Executing then 1 else 0) + (if e.stateTag == Executing then 1 else 0)
    decreases |execs|
  {
    var last := |execs| - 1;
    if i == last {
      assert execs[i := e][..last] == execs[..last];
    } else {
      assert execs[i := e][..last] == execs[..last][i := e];
      CountUpdate(execs[..last], i, e);
    }
  }

  lemma CountAppend(execs: seq<ExecutorState>, e: ExecutorState)
    ensures CountExecuting(execs + [e]) == CountExecuting(execs) + (if e.stateTag == Executing then 1 else 0)
  {
    assert (execs + [e])[..|execs|] == execs;
  }

  /** The thread goes to sleep exactly when nobody wants to run. */
  lemma {:induction false} NoneActiveIff(execs: seq<ExecutorState>)
    ensures CountExecuting(execs) == 0 <==> forall e <- execs :: e.stateTag == Suspended
  {
    if execs != [] {
      var last := |execs| - 1;
      NoneActiveIff(execs[..last]);
      assert forall e :: e in execs <==> e in execs[..last] || e == execs[last];
    }
  }

  /** What is left once the entry at i has made way for the last one. */
  function SwapRemoved(execs: seq<ExecutorState>, i: nat): seq<ExecutorState>
    requires i < |execs|
  {
    execs[i := execs[|execs| - 1]][..|execs| - 1]
  }

  lemma CountSwapRemoved(execs: seq<ExecutorState>, i: nat)
    requires i < |execs|
    ensures CountExecuting(SwapRemoved(execs, i)) == CountExecuting(execs) - (if execs[i].stateTag == Executing then 1 else 0)
  {
    var moved := execs[i := execs[|execs| - 1]];
    CountUpdate(execs, i, execs[|execs| - 1]);
    assert CountExecuting(moved) == CountExecuting(moved[..|moved| - 1]) + (if moved[|moved| - 1].stateTag == Executing then 1 else 0);
  }

  lemma SwapRemovedIds(execs: seq<ExecutorState>, i: nat)
    requires i < |execs| && Distinct(execs)
    ensures forall e :: e in SwapRemoved(execs, i) <==> e in execs && e.execId != execs[i].execId
    ensures Ids(SwapRemoved(execs, i)) == Ids(execs) - {execs[i].execId}
  {
    var left := SwapRemoved(execs, i);
    forall e | e in execs && e.execId != execs[i].execId ensures e in left {
      var k :| 0 <= k < |execs| && execs[k] == e;
      assert if k == |execs| - 1 then left[i] == e else left[k] == e;
    }
  }

  // ----- the removal of an executor, as intended and as written -----

  /** RemoveExecutor on array and map. intended: the executor that moved into the gap gets
      its new index. As written, the reference taken before the swap names the removed
      executor afterwards, so the entry updated is the one erased next. */
  function AfterRemoval(execs: seq<ExecutorState>, index: map<ExecutorID, nat>, id: ExecutorID, intended: bool):
    (seq<ExecutorState>, map<ExecutorID, nat>)
    requires id in index ==> index[id] < |execs|
  {
    if id !in index then (execs, index)
    else
      var i, last := index[id], |execs| - 1;
      var swapped := execs[i := execs[last]][last := execs[i]];
      var updated := if intended then swapped[i].execId else swapped[last].execId;
      (swapped[..last], (if i != last then index[updated := i] else index) - {id})
  }

  lemma IntendedRemovalKeepsInverse(execs: seq<ExecutorState>, index: map<ExecutorID, nat>, id: ExecutorID)
    requires Inverse(execs, index)
    ensures var (left, kept) := AfterRemoval(execs, index, id, true);
            && Inverse(left, kept) && kept.Keys == index.Keys - {id}
            && forall e :: e in left <==> e in execs && e.execId != id
  {
    InverseIsDistinct(execs, index);
    if id in index {
      assert AfterRemoval(execs, index, id, true).0 == SwapRemoved(execs, index[id]);
      SwapRemovedIds(execs, index[id]);
    }
  }

  /** The line as written keeps the inverse only when nothing has to move. */
  lemma WrittenRemovalKeepsInverseIff(execs: seq<ExecutorState>, index: map<ExecutorID, nat>, id: ExecutorID)
    requires Inverse(execs, index)
    ensures var (left, kept) := AfterRemoval(execs, index, id, false);
            Inverse(left, kept) <==> id !in index || index[id] == |execs| - 1
  {
    if id in index && index[id] != |execs| - 1 {
      var (left, kept) := AfterRemoval(execs, index, id, false);
      var moved := execs[|execs| - 1].execId;
      assert index[moved] == |execs| - 1;
      assert moved != id;
      assert kept[moved] == |execs| - 1;
    }
  }

  /** Two executors, the first ends: the second stays indexed where it no longer is. */
  lemma WrittenRemovalLosesTheMovedExecutor()
    ensures var execs := [ExecutorState(7, Executing), ExecutorState(8, Suspended)];
            var index: map<ExecutorID, nat> := map[7 := 0, 8 := 1];
            var (left, kept) := AfterRemoval(execs, index, 7, false);
            Inverse(execs, index) && left == [ExecutorState(8, Suspended)] && kept[8] == 1
  {
  }

  // ----- the thread -----

  /** Every signal is also a wake-up. */
  function Woken(e: ExecutorState, id: ExecutorID): ExecutorState {
    if id == EXEC_WILDCARD || e.execId == id then e.(stateTag := Executing) else e
  }

  function AllWoken(execs: seq<ExecutorState>, id: ExecutorID): (r: seq<ExecutorState>)
    ensures |r| == |execs|
  {
    seq(|execs|, i requires 0 <= i < |execs| => Woken(execs[i], id))
  }

  predicate Ends(e: ExecutorState, answer: ExecutorID -> Answer) { e.stateTag == Executing && answer(e.execId) == End }

  function Ran(e: ExecutorState, answer: ExecutorID -> Answer): ExecutorState {
    if e.stateTag == Executing && answer(e.execId) == Suspend then e.(stateTag := Suspended) else e
  }

  /** Every executor has been run that wanted to. */
  ghost predicate AllRan(before: seq<ExecutorState>, answer: ExecutorID -> Answer, ran: seq<ExecutorState>) {
    |ran| == |before| && forall i {:trigger ran[i]} :: 0 <= i < |ran| ==> ran[i] == Ran(before[i], answer)
  }

  ghost predicate EndersAre(before: seq<ExecutorState>, answer: ExecutorID -> Answer, ended: seq<ExecutorID>) {
    forall id {:trigger id in ended} :: id in ended <==> exists b <- before :: Ends(b, answer) && b.execId == id
  }

  /** Those that did not end are left, as they answered. */
  ghost predicate LeftAre(before: seq<ExecutorState>, answer: ExecutorID -> Answer, left: seq<ExecutorState>) {
    forall e {:trigger e in left} :: e in left <==> exists b <- before :: !Ends(b, answer) && e == Ran(b, answer)
  }

  lemma EndersExecute(before: seq<ExecutorState>, answer: ExecutorID -> Answer, ran: seq<ExecutorState>, ended: seq<ExecutorID>)
    requires Distinct(before) && AllRan(before, answer, ran) && EndersAre(before, answer, ended)
    ensures forall i {:trigger ran[i]} :: 0 <= i < |ran| ==> (ran[i].execId in ended <==> Ends(before[i], answer))
    ensures forall e <- ran :: e.execId in ended ==> e.stateTag == Executing
  {
    forall i | 0 <= i < |ran| ensures ran[i].execId in ended <==> Ends(before[i], answer) {
      assert before[i] in before;
    }
  }

  lemma RoundIs(before: seq<ExecutorState>, answer: ExecutorID -> Answer, ran: seq<ExecutorState>, ended: seq<ExecutorID>, left: seq<ExecutorState>)
    requires Distinct(before) && AllRan(before, answer, ran) && EndersAre(before, answer, ended)
    requires forall e :: e in left <==> e in ran && e.execId !in ended
    ensures LeftAre(before, answer, left) && forall b <- before :: Treated(b, answer, left, ended)
  {
    EndersExecute(before, answer, ran, ended);
    forall e | e in left ensures exists b <- before :: !Ends(b, answer) && e == Ran(b, answer) {
      var i :| 0 <= i < |ran| && ran[i] == e;
      assert before[i] in before;
    }
    forall b | b in before && !Ends(b, answer) ensures Ran(b, answer) in left {
      var i :| 0 <= i < |before| && before[i] == b;
      assert ran[i] in ran;
    }
    AllTreated(before, left, answer, ended);
  }

  /** What a round makes of one executor: who is suspended is not run; who is run stays,
      is suspended or goes, as it answers. */
  predicate Treated(b: ExecutorState, answer: ExecutorID -> Answer, left: seq<ExecutorState>, ended: seq<ExecutorID>) {
    match b.stateTag
    case Suspended => b in left && b.execId !in ended
    case Executing =>
      match answer(b.execId)
      case Continue => b in left && b.execId !in ended
      case Suspend => ExecutorState(b.execId, Suspended) in left && b.execId !in ended
      case End => b.execId in ended && forall e <- left :: e.execId != b.execId
  }

  lemma AllTreated(before: seq<ExecutorState>, left: seq<ExecutorState>, answer: ExecutorID -> Answer, ended: seq<ExecutorID>)
    requires Distinct(before) && LeftAre(before, answer, left) && EndersAre(before, answer, ended)
    ensures forall b <- before :: Treated(b, answer, left, ended)
  {
    forall b | b in before ensures Treated(b, answer, left, ended) {
      assert forall c :: c in before && c.execId == b.execId ==> c == b;
    }
  }

  class ExecutorThread {
    var executors: seq<ExecutorState>
    var signalMap: map<ExecutorID, nat>
    var nActive: int

    /** nActive is unsigned in the source; a count never wraps. */
    ghost predicate Valid() reads this {
      Inverse(executors, signalMap) && nActive == CountExecuting(executors)
    }

    constructor ()
      ensures Valid() && executors == []
    {
      executors, signalMap, nActive := [], map[], 0;
    }

    /** IDs are handed out once, so the new one is not hosted yet. */
    method AddExecutor(execId: ExecutorID, initialised: bool)
      requires Valid() && execId !in signalMap
      modifies this
      ensures Valid()
      ensures executors == old(executors) + if initialised then [ExecutorState(execId, Executing)] else []
    {
      if !initialised {
        return;
      }
      CountAppend(executors, ExecutorState(execId, Executing));
      var localId := |executors|;
      executors := executors + [ExecutorState(execId, Executing)];
      signalMap := signalMap[execId := localId];
      nActive := nActive + 1;
    }

    method HandleSignalForIndex(execIndex: nat)
      requires Valid() && execIndex < |executors|
      modifies this`executors, this`nActive
      ensures Valid() && executors == old(executors)[execIndex := old(executors)[execIndex].(stateTag := Executing)]
    {
      var rExec := executors[execIndex];
      if rExec.stateTag == Suspended {
        nActive := nActive + 1;
        CountUpdate(executors, execIndex, rExec.(stateTag := Executing));
        executors := executors[execIndex := rExec.(stateTag := Executing)];
      }
    }

    /** requested: the executors asked to terminate, in order. */
    method HandleExecutorSignal(execId: ExecutorID, signalType: SignalType) returns (requested: seq<ExecutorID>)
      requires Valid()
      modifies this`executors, this`nActive
      ensures Valid() && executors == AllWoken(old(executors), execId)
      ensures forall i :: 0 <= i < |executors| ==>
                && executors[i].execId == old(executors)[i].execId
                && executors[i].stateTag ==
                   if execId == 0xffff_ffff || old(executors)[i].execId == execId then Executing else old(executors)[i].stateTag
      ensures forall e :: e in requested <==>
                signalType == RequestTermination && e in signalMap && (execId == EXEC_WILDCARD || e == execId)
    {
      InverseIsDistinct(executors, signalMap);
      if execId != EXEC_WILDCARD {
        requested := [];
        if execId in signalMap {
          if signalType == RequestTermination {
            requested := [execId];
          }
          HandleSignalForIndex(signalMap[execId]);
        }
      } else {
        requested := HandleSignalForAll(signalType);
      }
      forall j | 0 <= j < |executors| ensures executors[j] == Woken(old(executors)[j], execId) {
        assert old(executors)[j].execId in signalMap;
      }
    }

    method HandleSignalForAll(signalType: SignalType) returns (requested: seq<ExecutorID>)
      requires Valid()
      modifies this`executors, this`nActive
      ensures Valid() && |executors| == |old(executors)|
      ensures forall j {:trigger executors[j]} :: 0 <= j < |executors| ==> executors[j] == old(executors)[j].(stateTag := Executing)
      ensures forall e :: e in requested <==> signalType == RequestTermination && e in signalMap
    {
      requested := [];
      ghost var before := executors;
      var i := 0;
      while i < |executors|
        invariant Valid() && i <= |executors| == |before|
        invariant forall j {:trigger executors[j]} :: 0 <= j < |before| ==> executors[j] == if j < i then before[j].(stateTag := Executing) else before[j]
        invariant |requested| == if signalType == RequestTermination then i else 0
        invariant forall j {:trigger requested[j]} :: 0 <= j < |requested| ==> requested[j] == before[j].execId
      {
        if signalType == RequestTermination {
          requested := requested + [executors[i].execId];
        }
        HandleSignalForIndex(i);
        i := i + 1;
      }
      forall e | e in signalMap && signalType == RequestTermination ensures e in requested {
        assert requested[signalMap[e]] == e;
      }
    }

    /** The swap-remove as intended. Only executors that want to run can end. */
    method RemoveExecutor(execId: ExecutorID)
      requires Valid()
      requires execId in signalMap ==> executors[signalMap[execId]].stateTag == Executing
      modifies this
      ensures Valid() && (executors, signalMap) == AfterRemoval(old(executors), old(signalMap), execId, true)
      ensures forall e :: e in executors <==> e in old(executors) && e.execId != execId
    {
      IntendedRemovalKeepsInverse(executors, signalMap, execId);
      if execId in signalMap {
        var execIdx := signalMap[execId];
        CountSwapRemoved(executors, execIdx);
        var lastIdx := |executors| - 1;
        if execIdx != lastIdx {
          var other := executors[lastIdx];
          executors := executors[execIdx := other][lastIdx := executors[execIdx]];
          signalMap := signalMap[other.execId := execIdx];
        }
        signalMap := signalMap - {execId};
        nActive := nActive - 1;
        executors := executors[..lastIdx];
      }
    }

    /** Run every executor that wants to run, once, and let those go that end. */
    method Round(answer: ExecutorID -> Answer) returns (execsToRemove: seq<ExecutorID>)
      requires Valid()
      modifies this
      ensures Valid()
      ensures LeftAre(old(executors), answer, executors) && EndersAre(old(executors), answer, execsToRemove)
      ensures forall b <- old(executors) :: Treated(b, answer, executors, execsToRemove)
    {
      InverseIsDistinct(executors, signalMap);
      execsToRemove := RunExecuting(answer);
      ghost var ran := executors;
      EndersExecute(old(executors), answer, ran, execsToRemove);
      RemoveAll(execsToRemove);
      RoundIs(old(executors), answer, ran, execsToRemove, executors);
    }

    method RemoveOne(execsToRemove: seq<ExecutorID>, k: nat)
      requires Valid() && k < |execsToRemove|
      requires forall e <- executors :: e.execId in execsToRemove ==> e.stateTag == Executing
      modifies this
      ensures Valid() && forall e :: e in executors <==> e in old(executors) && e.execId != execsToRemove[k]
    {
      assert execsToRemove[k] in signalMap ==> executors[signalMap[execsToRemove[k]]] in executors;
      RemoveExecutor(execsToRemove[k]);
    }

    method RemoveAll(execsToRemove: seq<ExecutorID>)
      requires Valid() && forall e <- executors :: e.execId in execsToRemove ==> e.stateTag == Executing
      modifies this
      ensures Valid() && forall e :: e in executors <==> e in old(executors) && e.execId !in execsToRemove
    {
      ghost var ran := executors;
      var k := 0;
      while k < |execsToRemove|
        invariant Valid() && k <= |execsToRemove|
        invariant forall e :: e in executors <==> e in ran && e.execId !in execsToRemove[..k]
      {
        RemoveOne(execsToRemove, k);
        k := k + 1;
      }
      assert execsToRemove[..k] == execsToRemove;
    }

    /** The loop over the executors. */
    method RunExecuting(answer: ExecutorID -> Answer) returns (execsToRemove: seq<ExecutorID>)
      requires Valid()
      modifies this`executors, this`nActive
      ensures Valid() && AllRan(old(executors), answer, executors) && EndersAre(old(executors), answer, execsToRemove)
      ensures forall i :: 0 <= i < |executors| ==>
                var was := old(executors)[i];
                executors[i] == if was.stateTag == Executing && answer(was.execId) == Suspend then ExecutorState(was.execId, Suspended) else was
    {
      execsToRemove := [];
      var i := 0;
      ghost var before := executors;
      while i < |executors|
        invariant Valid() && i <= |executors| == |before|
        invariant forall j {:trigger executors[j]} :: 0 <= j < |before| ==> executors[j] == if j < i then Ran(before[j], answer) else before[j]
        invariant forall id :: id in execsToRemove <==> exists b <- before[..i] :: Ends(b, answer) && b.execId == id
      {
        execsToRemove := RunOne(i, answer, execsToRemove);
        assert before[..i + 1] == before[..i] + [before[i]];
        i := i + 1;
      }
      assert before[..i] == before;
    }

    method RunOne(i: nat, answer: ExecutorID -> Answer, ended: seq<ExecutorID>) returns (execsToRemove: seq<ExecutorID>)
      requires Valid() && i < |executors|
      modifies this`executors, this`nActive
      ensures Valid() && executors == old(executors)[i := Ran(old(executors)[i], answer)]
      ensures execsToRemove == if Ends(old(executors)[i], answer) then ended + [old(executors)[i].execId] else ended
    {
      execsToRemove := ended;
      var exec := executors[i];
      if exec.stateTag == Executing {
        var nextState := answer(exec.execId);
        if nextState == Suspend {
          CountUpdate(executors, i, exec.(stateTag := Suspended));
          executors := executors[i := exec.(stateTag := Suspended)];
          nActive := nActive - 1;
        } else if nextState == End {
          execsToRemove := execsToRemove + [exec.execId];
        }
      }
    }
  }
}
