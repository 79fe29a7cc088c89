/** Holder/DTUtils: walking a data tree with an explicit stack, and the recursive preorder
    traversal that walk stands for. */
module DataTree {
  import opened Collections

  datatype Entry = Entry(key: string, value: Datum)

  /** text: how the element prints. repr: the object's own representation, if it has one. */
  datatype Datum =
    | Element(text: string)
    | Object(repr: Option<string>)
    | Dict(entries: seq<Entry>)
    | List(items: seq<Datum>)

  datatype IterInstruction = Enter | Skip | Break

  datatype Event =
    | OnElement(datum: Datum)
    | OnObject(datum: Datum)
    | OnDict(datum: Datum, hasElements: bool)
    | OnList(datum: Datum, hasElements: bool)
    | OnDictKey(key: string)
    | EndCompound

  /** A serializer answers each event knowing everything it was told before. */
  type Serializer = seq<Event> -> IterInstruction

  function ChildCount(d: Datum): nat {
    match d
    case Dict(entries) => |entries|
    case List(items) => |items|
    case _ => 0
  }

  function ChildValue(d: Datum, k: nat): (child: Datum)
    requires k < ChildCount(d)
    ensures child < d
  {
    match d
    case Dict(entries) => entries[k].value
    case List(items) => items[k]
  }

  function ArrivalOf(d: Datum): Event {
    match d
    case Element(_) => OnElement(d)
    case Object(_) => OnObject(d)
    case Dict(entries) => OnDict(d, entries != [])
    case List(items) => OnList(d, items != [])
  }

  // ----- the recursive traversal -----

  /** ok is false if the serializer broke off; log is what it was told by then. */
  datatype Outcome = Outcome(ok: bool, log: seq<Event>)

  function Preorder(answer: Serializer, d: Datum, log: seq<Event>): Outcome
    decreases d, 1, 0
  {
    var arrived := log + [ArrivalOf(d)];
    if answer(arrived) == Break then Outcome(false, arrived)
    else if answer(arrived) == Enter && ChildCount(d) > 0 then Inside(answer, d, 0, arrived)
    else Outcome(true, arrived)
  }

  /** The children of d from the k-th on, and the end of d. */
  function Inside(answer: Serializer, d: Datum, k: nat, log: seq<Event>): Outcome
    requires k <= ChildCount(d)
    decreases d, 0, ChildCount(d) - k
  {
    if k == ChildCount(d) then Outcome(true, log + [EndCompound])
    else
      var keyed := if d.Dict? then log + [OnDictKey(d.entries[k].key)] else log;
      if d.Dict? && answer(keyed) == Break then Outcome(false, keyed)
      else if d.Dict? && answer(keyed) == Skip then Inside(answer, d, k + 1, keyed)
      else
        var visited := Preorder(answer, ChildValue(d, k), keyed);
        if visited.ok then Inside(answer, d, k + 1, visited.log) else visited
  }

  // ----- the walk with an explicit stack -----

  datatype DFSLevel = DFSLevel(level: Datum, childrenLoaded: bool, curIdx: nat) {
    predicate Valid() {
      curIdx <= ChildCount(level) && (childrenLoaded <==> curIdx > 0)
    }
  }

  /** What remains to be done for a level already on the stack. */
  function FinishLevel(answer: Serializer, f: DFSLevel, log: seq<Event>): Outcome
    requires f.Valid()
  {
    if f.curIdx == 0 then Preorder(answer, f.level, log) else Inside(answer, f.level, f.curIdx, log)
  }

  /** What remains to be done for the whole stack. */
  function Finish(answer: Serializer, stack: seq<DFSLevel>, log: seq<Event>): Outcome
    requires forall f :: f in stack ==> f.Valid()
  {
    if stack == [] then Outcome(true, log)
    else
      var top := FinishLevel(answer, stack[|stack| - 1], log);
      if top.ok then Finish(answer, stack[..|stack| - 1], top.log) else top
  }

  ghost function Weight(d: Datum): nat
    decreases d, 1, 0
  {
    1 + WeightFrom(d, 0)
  }

  ghost function WeightFrom(d: Datum, k: nat): nat
    decreases d, 0, ChildCount(d) - k
  {
    if k >= ChildCount(d) then 0 else 1 + Weight(ChildValue(d, k)) + WeightFrom(d, k + 1)
  }

  ghost function StackWeight(stack: seq<DFSLevel>): nat {
    if stack == [] then 0
    else 1 + WeightFrom(stack[|stack| - 1].level, stack[|stack| - 1].curIdx) + StackWeight(stack[..|stack| - 1])
  }

  /** The loop tells the serializer exactly what the recursive traversal would, and ends. */
  method SerializeDataTree(root: Datum, answer: Serializer) returns (ok: bool, log: seq<Event>)
    ensures Outcome(ok, log) == Preorder(answer, root, [])
  {
    var dfsStack := [DFSLevel(root, false, 0)];
    log := [];
    assert dfsStack[..0] == [];
    while dfsStack != []
      invariant forall f :: f in dfsStack ==> f.Valid()
      invariant Finish(answer, dfsStack, log) == Preorder(answer, root, [])
      decreases StackWeight(dfsStack)
    {
      ok, dfsStack, log := VisitTop(answer, dfsStack, log);
      if !ok {
        return;
      }
    }
    ok := true;
  }

  /** The loop body: announce a new level, then go to its next child or leave it. */
  method VisitTop(answer: Serializer, stack: seq<DFSLevel>, told: seq<Event>)
    returns (ok: bool, dfsStack: seq<DFSLevel>, log: seq<Event>)
    requires stack != [] && forall f :: f in stack ==> f.Valid()
    ensures !ok ==> Finish(answer, stack, told) == Outcome(false, log)
    ensures ok ==> (forall f :: f in dfsStack ==> f.Valid()) && Finish(answer, stack, told) == Finish(answer, dfsStack, log)
    ensures ok ==> StackWeight(dfsStack) < StackWeight(stack)
  {
    log, dfsStack := told, stack;
    var below := stack[..|stack| - 1];
    var cur := stack[|stack| - 1];
    assert cur in stack;
    var iterIns := Enter;
    if cur.curIdx == 0 {
      log := log + [ArrivalOf(cur.level)];
      iterIns := answer(log);
      if (cur.level.Dict? || cur.level.List?) && iterIns == Enter {
        cur := cur.(childrenLoaded := true);
      }
    }
    if iterIns == Break {
      return false, dfsStack, log;
    }
    if cur.childrenLoaded && cur.curIdx < ChildCount(cur.level) {
      ok, dfsStack, log := NextChild(answer, below, cur, log);
      assert stack == below + [stack[|stack| - 1]];
      StackWeightPush(below, stack[|stack| - 1]);
    } else {
      if cur.childrenLoaded && ChildCount(cur.level) > 0 {
        log := log + [EndCompound];
      }
      dfsStack := below;
      ok := true;
    }
  }

  /** Move the level on to its next child, and push that child unless its key is skipped. */
  method NextChild(answer: Serializer, below: seq<DFSLevel>, level: DFSLevel, told: seq<Event>)
    returns (ok: bool, dfsStack: seq<DFSLevel>, log: seq<Event>)
    requires level.childrenLoaded && level.curIdx < ChildCount(level.level) && forall f :: f in below ==> f.Valid()
    ensures var inside := Inside(answer, level.level, level.curIdx, told);
            var all := if inside.ok then Finish(answer, below, inside.log) else inside;
            && (!ok ==> all == Outcome(false, log))
            && (ok ==> (forall f :: f in dfsStack ==> f.Valid()) && Finish(answer, dfsStack, log) == all)
    ensures ok ==> StackWeight(dfsStack) < 1 + WeightFrom(level.level, level.curIdx) + StackWeight(below)
  {
    log := told;
    var k := level.curIdx;
    var cur := level.(curIdx := k + 1);
    dfsStack := below + [cur];
    StackWeightPush(below, cur);
    var shouldPush := true;
    if cur.level.Dict? {
      log := log + [OnDictKey(cur.level.entries[k].key)];
      var keyIterIns := answer(log);
      if keyIterIns == Break {
        return false, dfsStack, log;
      }
      shouldPush := keyIterIns == Enter;
    }
    if shouldPush {
      var child := DFSLevel(ChildValue(cur.level, k), false, 0);
      StackWeightPush(dfsStack, child);
      FinishPush(answer, dfsStack, child, log);
      var visited := Preorder(answer, child.level, log);
      FinishPush(answer, below, cur, visited.log);
      dfsStack := dfsStack + [child];
    } else {
      FinishPush(answer, below, cur, log);
    }
    ok := true;
  }

  lemma StackWeightPush(stack: seq<DFSLevel>, f: DFSLevel)
    ensures StackWeight(stack + [f]) == 1 + WeightFrom(f.level, f.curIdx) + StackWeight(stack)
  {
    assert (stack + [f])[..|stack|] == stack;
  }

  lemma FinishPush(answer: Serializer, stack: seq<DFSLevel>, f: DFSLevel, log: seq<Event>)
    requires f.Valid() && forall g :: g in stack ==> g.Valid()
    ensures Finish(answer, stack + [f], log) ==
            var top := FinishLevel(answer, f, log);
            if top.ok then Finish(answer, stack, top.log) else top
  {
    assert (stack + [f])[..|stack|] == stack;
  }

  // ----- every entered compound is ended, once -----

  predicate Enters(answer: Serializer, log: seq<Event>, i: nat)
    requires i < |log|
  {
    (match log[i]
     case OnDict(_, hasElements) => hasElements
     case OnList(_, hasElements) => hasElements
     case _ => false)
    && answer(log[..i + 1]) == Enter
  }

  /** Compounds entered but not ended yet. */
  function Open(answer: Serializer, log: seq<Event>): int {
    if log == [] then 0
    else
      var i := |log| - 1;
      Open(answer, log[..i]) + (if Enters(answer, log, i) then 1 else 0) - (if log[i] == EndCompound then 1 else 0)
  }

  lemma OpenAppend(answer: Serializer, log: seq<Event>, e: Event)
    ensures Open(answer, log + [e]) == Open(answer, log) + (if Enters(answer, log + [e], |log|) then 1 else 0) - (if e == EndCompound then 1 else 0)
  {
    assert (log + [e])[..|log|] == log;
  }

  /** From position lo on, never fewer than least compounds are open. */
  ghost predicate StaysAbove(answer: Serializer, log: seq<Event>, lo: nat, least: int) {
    forall n {:trigger OpenAt(answer, log, n)} :: lo <= n <= |log| ==> OpenAt(answer, log, n) >= least
  }

  ghost function OpenAt(answer: Serializer, log: seq<Event>, n: int): int {
    if 0 <= n <= |log| then Open(answer, log[..n]) else 0
  }

  lemma AboveOne(answer: Serializer, log: seq<Event>, e: Event, least: int)
    requires Open(answer, log) >= least && Open(answer, log + [e]) >= least
    ensures StaysAbove(answer, log + [e], |log|, least)
  {
    assert (log + [e])[..|log|] == log && (log + [e])[..|log| + 1] == log + [e];
  }

  lemma AboveJoin(answer: Serializer, whole: seq<Event>, part: seq<Event>, lo: nat, least: int)
    requires part <= whole && lo <= |part|
    requires StaysAbove(answer, part, lo, least) && StaysAbove(answer, whole, |part|, least)
    ensures StaysAbove(answer, whole, lo, least)
  {
    forall n | lo <= n <= |whole| ensures OpenAt(answer, whole, n) >= least {
      if n <= |part| {
        assert whole[..n] == part[..n];
        assert OpenAt(answer, part, n) >= least;
      }
    }
  }

  lemma AboveWeaken(answer: Serializer, log: seq<Event>, lo: nat, least: int, less: int)
    requires StaysAbove(answer, log, lo, least) && less <= least
    ensures StaysAbove(answer, log, lo, less)
  {
    forall n | lo <= n <= |log| ensures OpenAt(answer, log, n) >= less {
      assert OpenAt(answer, log, n) >= least;
    }
  }

  lemma {:induction false} PreorderBalanced(answer: Serializer, d: Datum, log: seq<Event>)
    ensures var r := Preorder(answer, d, log);
            && log <= r.log
            && (r.ok ==> Open(answer, r.log) == Open(answer, log))
            && StaysAbove(answer, r.log, |log|, Open(answer, log))
    decreases d, 1, 0
  {
    var arrived := log + [ArrivalOf(d)];
    OpenAppend(answer, log, ArrivalOf(d));
    AboveOne(answer, log, ArrivalOf(d), Open(answer, log));
    if answer(arrived) == Enter && ChildCount(d) > 0 {
      assert arrived[..|log| + 1] == arrived;
      InsideBalanced(answer, d, 0, arrived);
      AboveJoin(answer, Preorder(answer, d, log).log, arrived, |log|, Open(answer, log));
    }
  }

  lemma {:induction false} InsideBalanced(answer: Serializer, d: Datum, k: nat, log: seq<Event>)
    requires k <= ChildCount(d)
    ensures var r := Inside(answer, d, k, log);
            && log <= r.log
            && (r.ok ==> Open(answer, r.log) == Open(answer, log) - 1)
            && StaysAbove(answer, r.log, |log|, Open(answer, log) - 1)
    decreases d, 0, ChildCount(d) - k, 0
  {
    var least := Open(answer, log) - 1;
    if k == ChildCount(d) {
      OpenAppend(answer, log, EndCompound);
      AboveOne(answer, log, EndCompound, least);
    } else if d.Dict? {
      var keyed := log + [OnDictKey(d.entries[k].key)];
      OpenAppend(answer, log, OnDictKey(d.entries[k].key));
      AboveOne(answer, log, OnDictKey(d.entries[k].key), least);
      if answer(keyed) == Skip {
        InsideBalanced(answer, d, k + 1, keyed);
        AboveJoin(answer, Inside(answer, d, k, log).log, keyed, |log|, least);
      } else if answer(keyed) == Enter {
        ChildBalanced(answer, d, k, keyed);
        AboveJoin(answer, Inside(answer, d, k, log).log, keyed, |log|, least);
      }
    } else {
      ChildBalanced(answer, d, k, log);
    }
  }

  lemma {:induction false} ChildBalanced(answer: Serializer, d: Datum, k: nat, log: seq<Event>)
    requires k < ChildCount(d)
    ensures var visited := Preorder(answer, ChildValue(d, k), log);
            var r := if visited.ok then Inside(answer, d, k + 1, visited.log) else visited;
            && log <= r.log
            && (r.ok ==> Open(answer, r.log) == Open(answer, log) - 1)
            && StaysAbove(answer, r.log, |log|, Open(answer, log) - 1)
    decreases d, 0, ChildCount(d) - k - 1, 1
  {
    var visited := Preorder(answer, ChildValue(d, k), log);
    var least := Open(answer, log) - 1;
    PreorderBalanced(answer, ChildValue(d, k), log);
    AboveWeaken(answer, visited.log, |log|, Open(answer, log), least);
    if visited.ok {
      InsideBalanced(answer, d, k + 1, visited.log);
      AboveJoin(answer, Inside(answer, d, k + 1, visited.log).log, visited.log, |log|, least);
    }
  }

  /** On a run that is not broken off, entered non-empty compounds and ends match exactly,
      and no end comes before its compound. */
  lemma EndsMatchEntries(answer: Serializer, d: Datum)
    ensures var r := Preorder(answer, d, []);
            && (r.ok ==> Open(answer, r.log) == 0)
            && forall n :: 0 <= n <= |r.log| ==> OpenAt(answer, r.log, n) >= 0
  {
    PreorderBalanced(answer, d, []);
  }
}
