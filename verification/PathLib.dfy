/** Holder/PathLib: following a path through the tree, one callback per step, and the two
    callbacks that add a value and find a node. */
module PathLib {
  import opened Collections
  import opened ObjectTree

  type Path = seq<string>

  datatype TraceAction = Proceed | StopTrace | FindNext | CreateDictionary | CreateValue

  /** Asked with the position on the path, its length, the node reached, and whether the last
      step created it. Proceed is what the source calls OK. */
  type Callback = (nat, nat, NodeID, bool) -> TraceAction

  const SIZE_RANGE: nat := 0x1_0000_0000_0000_0000

  /** last: the node of the final call, if the trace came that far. */
  datatype Traced<V> = Traced(result: NodeResult, tree: Tree<V>, last: Option<NodeID>)

  /** From the i-th component on. A tree that is const cannot be added to. */
  function TraceFrom<V>(t: Tree<V>, path: Path, i: nat, node: NodeID, wasCreated: bool, callback: Callback, isConst: bool): Traced<V>
    requires i <= |path|
    decreases |path| - i
  {
    var action := callback(i, |path|, node, wasCreated);
    if i == |path| then Traced(if action == Proceed then OK else VisitorError, t, Some(node))
    else if action == StopTrace then Traced(VisitorError, t, None)
    else if action == CreateDictionary || action == CreateValue then
      if isConst then Traced(VisitorError, t, None)
      else
        var added := AddOutcome(t, node, path[i], if action == CreateDictionary then Dictionary else Value);
        if added.result == OK || added.result == DuplicateName
        then TraceFrom(added.tree, path, i + 1, added.id, added.result == OK, callback, isConst)
        else Traced(added.result, t, None)
    else
      var (result, child) := ChildOutcome(t, node, path[i]);
      if result == OK then TraceFrom(t, path, i + 1, child, false, callback, isConst) else Traced(result, t, None)
  }

  /** pathSize - 1 wraps around for an empty path. */
  function NodeAdder(createDirs: bool): Callback {
    (pathIdx: nat, pathSize: nat, nodeId: NodeID, wasCreated: bool) =>
      var last := (pathSize - 1) % SIZE_RANGE;
      if pathIdx < last then (if createDirs then CreateDictionary else FindNext)
      else if pathIdx == last then CreateValue
      else if wasCreated then Proceed
      else StopTrace
  }

  function NodeFinder(): Callback {
    (pathIdx: nat, pathSize: nat, nodeId: NodeID, wasCreated: bool) => if pathIdx < pathSize then FindNext else Proceed
  }

  function AddPath<V>(t: Tree<V>, path: Path, createDirs: bool): Traced<V> {
    TraceFrom(t, path, 0, NODE_ROOT, false, NodeAdder(createDirs), false)
  }

  function FindPath<V>(t: Tree<V>, path: Path): Traced<V> {
    TraceFrom(t, path, 0, NODE_ROOT, false, NodeFinder(), true)
  }

  /** A trace that succeeds has asked the callback once for each component and once at the end,
      was never told to stop, created nodes only when told to, and was let go at the end. */
  lemma {:induction false} TraceAsks<V>(t: Tree<V>, path: Path, i: nat, node: NodeID, wasCreated: bool, callback: Callback, isConst: bool)
    returns (visited: seq<NodeID>, created: seq<bool>)
    requires i <= |path| && TraceFrom(t, path, i, node, wasCreated, callback, isConst).result == OK
    ensures |visited| == |created| == |path| - i + 1 && visited[0] == node && created[0] == wasCreated
    ensures forall k :: 0 <= k < |path| - i ==> Asked(path, i + k, visited[k], created[k], created[k + 1], callback, isConst)
    ensures callback(|path|, |path|, visited[|path| - i], created[|path| - i]) == Proceed
    ensures TraceFrom(t, path, i, node, wasCreated, callback, isConst).last == Some(visited[|path| - i])
    decreases |path| - i
  {
    if i == |path| {
      return [node], [wasCreated];
    }
    var action := callback(i, |path|, node, wasCreated);
    var others, made;
    if action == CreateDictionary || action == CreateValue {
      var added := AddOutcome(t, node, path[i], if action == CreateDictionary then Dictionary else Value);
      others, made := TraceAsks(added.tree, path, i + 1, added.id, added.result == OK, callback, isConst);
    } else {
      others, made := TraceAsks(t, path, i + 1, ChildOutcome(t, node, path[i]).1, false, callback, isConst);
    }
    visited, created := [node] + others, [wasCreated] + made;
    forall k | 0 <= k < |path| - i ensures Asked(path, i + k, visited[k], created[k], created[k + 1], callback, isConst) {
      assert k > 0 ==> visited[k] == others[k - 1] && created[k] == made[k - 1] && created[k + 1] == made[k];
    }
  }

  predicate Asked(path: Path, i: nat, node: NodeID, wasCreated: bool, creates: bool, callback: Callback, isConst: bool) {
    match callback(i, |path|, node, wasCreated)
    case StopTrace => false
    case CreateDictionary => !isConst
    case CreateValue => !isConst
    case _ => !creates
  }

  // ----- finding -----

  lemma {:induction false} FindsFrom<V>(t: Tree<V>, path: Path, i: nat, node: NodeID, wasCreated: bool)
    requires Valid(t) && i <= |path| && NodeAt(t, path[..i]) == Some(node)
    ensures var r := TraceFrom(t, path, i, node, wasCreated, NodeFinder(), true);
            && r.tree == t && (r.result == OK <==> NodeAt(t, path).Some?)
            && (r.result == OK ==> r.last == NodeAt(t, path))
    decreases |path| - i
  {
    WalkIsNode(t, path[..i]);
    if i == |path| {
      assert path[..i] == path;
    } else {
      NextStep(t, path, i, node);
      if path[i] in Children(t, node) {
        FindsFrom(t, path, i + 1, Children(t, node)[path[i]], false);
      } else {
        NoWayOn(t, path, i + 1);
      }
    }
  }

  lemma NextStep<V>(t: Tree<V>, path: Path, i: nat, node: NodeID)
    requires i < |path| && NodeAt(t, path[..i]) == Some(node)
    ensures NodeAt(t, path[..i + 1]) == if path[i] in Children(t, node) then Some(Children(t, node)[path[i]]) else None
  {
    assert path[..i + 1][..i] == path[..i];
  }

  lemma {:induction false} NoWayOn<V>(t: Tree<V>, path: Path, i: nat)
    requires i <= |path| && NodeAt(t, path[..i]) == None
    ensures NodeAt(t, path) == None
    decreases |path| - i
  {
    if i == |path| {
      assert path[..i] == path;
    } else {
      assert path[..i + 1][..i] == path[..i];
      NoWayOn(t, path, i + 1);
    }
  }

  /** Finding is the lookup: every path, the empty one included. */
  lemma FindIsLookup<V>(t: Tree<V>, path: Path)
    requires Valid(t)
    ensures var r := FindPath(t, path);
            && r.tree == t && (r.result == OK <==> NodeAt(t, path).Some?)
            && (r.result == OK ==> r.last == NodeAt(t, path))
  {
    assert path[..0] == [];
    FindsFrom(t, path, 0, NODE_ROOT, false);
  }

  // ----- adding -----

  /** A proper prefix of the path, from the i-th on, is a value. */
  ghost predicate ValueOnTheWay<V>(t: Tree<V>, path: Path, i: nat) {
    exists j :: i <= j < |path| && ValueAt(t, path[..j]).Some?
  }

  ghost predicate CanAdd<V>(t: Tree<V>, path: Path, createDirs: bool) {
    && path != [] && NodeAt(t, path) == None && !ValueOnTheWay(t, path, 0)
    && (createDirs || NodeAt(t, path[..|path| - 1]).Some?)
  }

  ghost predicate OneMoreLeaf<V>(t: Tree<V>, t': Tree<V>) {
    t.nextVal !in t.leaves && t'.leaves.Keys == t.leaves.Keys + {t.nextVal} && forall k :: k in t.leaves ==> t'.leaves[k] == t.leaves[k]
  }

  /** What adding from the i-th component on comes to. */
  ghost predicate AddsFrom<V>(t: Tree<V>, path: Path, i: nat, createDirs: bool, r: Traced<V>) {
    if path != [] && NodeAt(t, path) == None && !ValueOnTheWay(t, path, i) && (createDirs || NodeAt(t, path[..|path| - 1]).Some?) then
      && r.result == OK && Valid(r.tree) && r.last.Some? && Issued(r.last.value) && IsValue(r.tree, r.last.value)
      && NodeAt(r.tree, path) == r.last && ValueAt(r.tree, path) == Some(None)
      && (forall q :: q != path ==> ValueAt(r.tree, q) == ValueAt(t, q))
      && OneMoreLeaf(t, r.tree) && r.last.value == FreshID(t, Value)
    else r.result != OK && r.tree == t
  }

  ghost predicate Room<V>(t: Tree<V>, n: nat) { t.nextDict + n <= VALUE_BIT && t.nextVal < VALUE_BIT }

  lemma {:induction false} AddsFromHere<V>(t: Tree<V>, path: Path, i: nat, node: NodeID, created: bool, createDirs: bool)
    requires Valid(t) && |path| < SIZE_RANGE && i < |path| && Room(t, |path| - i) && NodeAt(t, path[..i]) == Some(node)
    ensures AddsFrom(t, path, i, createDirs, TraceFrom(t, path, i, node, created, NodeAdder(createDirs), false))
    decreases |path| - i
  {
    WalkIsNode(t, path[..i]);
    if IsValue(t, node) {
      StopsAtValue(t, path, i, node, created, createDirs);
    } else if i == |path| - 1 {
      AddsLast(t, path, node, created, createDirs);
    } else {
      TraceStep(t, path, i, node, created, createDirs);
      NextStep(t, path, i, node);
      if path[i] in Children(t, node) {
        AddsFromHere(t, path, i + 1, Children(t, node)[path[i]], false, createDirs);
        StepOver(t, path, i);
      } else if createDirs {
        AddsDirectory(t, path, i, node);
        var t' := Added(t, node, path[i], Dictionary);
        AddsFromHere(t', path, i + 1, FreshID(t, Dictionary), true, createDirs);
        SameValues(t, t', path, i, TraceFrom(t', path, i + 1, FreshID(t, Dictionary), true, NodeAdder(createDirs), false));
      } else {
        assert path[..|path| - 1][..i + 1] == path[..i + 1];
        NoWayOn(t, path[..|path| - 1], i + 1);
      }
    }
  }

  lemma StopsAtValue<V>(t: Tree<V>, path: Path, i: nat, node: NodeID, created: bool, createDirs: bool)
    requires i < |path| < SIZE_RANGE && NodeAt(t, path[..i]) == Some(node) && IsValue(t, node) && !IsDict(t, node)
    ensures AddsFrom(t, path, i, createDirs, TraceFrom(t, path, i, node, created, NodeAdder(createDirs), false))
  {
    assert ValueAt(t, path[..i]).Some?;
    var action := NodeAdder(createDirs)(i, |path|, node, created);
    assert action != Proceed && action != StopTrace;
  }

  lemma TraceStep<V>(t: Tree<V>, path: Path, i: nat, node: NodeID, created: bool, createDirs: bool)
    requires i < |path| - 1 && |path| < SIZE_RANGE && IsDict(t, node) && !IsValue(t, node)
    ensures var adder := NodeAdder(createDirs);
            TraceFrom(t, path, i, node, created, adder, false) ==
            if path[i] in Children(t, node) then TraceFrom(t, path, i + 1, Children(t, node)[path[i]], false, adder, false)
            else if createDirs then TraceFrom(Added(t, node, path[i], Dictionary), path, i + 1, FreshID(t, Dictionary), true, adder, false)
            else Traced(NameNotFound, t, None)
  {
    assert NodeAdder(createDirs)(i, |path|, node, created) == if createDirs then CreateDictionary else FindNext;
  }

  /** What is added below a new directory is added to the tree as it was before. */
  lemma SameValues<V>(t: Tree<V>, t': Tree<V>, path: Path, i: nat, r: Traced<V>)
    requires i < |path| && NodeAt(t, path) == None && NodeAt(t', path) == None
    requires !ValueOnTheWay(t, path, i) && !ValueOnTheWay(t', path, i + 1)
    requires forall q :: ValueAt(t', q) == ValueAt(t, q)
    requires t'.leaves == t.leaves && t'.nextVal == t.nextVal
    requires AddsFrom(t', path, i + 1, true, r)
    ensures AddsFrom(t, path, i, true, r)
  {
  }

  lemma StepOver<V>(t: Tree<V>, path: Path, i: nat)
    requires i < |path| && ValueAt(t, path[..i]) == None
    ensures ValueOnTheWay(t, path, i) <==> ValueOnTheWay(t, path, i + 1)
  {
  }

  /** No value's path changes when a node is added that is no value. */
  lemma AddedValues<V>(t: Tree<V>, parent: NodeID, name: string, nodeType: NodeType, q: Path)
    requires Valid(t) && HasRoom(t) && IsDict(t, parent) && name !in Children(t, parent)
    requires nodeType == Dictionary || !(q != [] && q[|q| - 1] == name && NodeAt(t, q[..|q| - 1]) == Some(parent))
    ensures ValueAt(Added(t, parent, name, nodeType), q) == ValueAt(t, q)
  {
    AddedWalk(t, parent, name, nodeType, q);
    AddedNodes(t, parent, name, nodeType);
    FreshIsNew(t, nodeType);
    if NodeAt(t, q).Some? {
      WalkIsNode(t, q);
    }
    if q != [] && NodeAt(t, q[..|q| - 1]) == Some(parent) && q[|q| - 1] == name {
      assert NodeAt(t, q) == None;
    }
  }

  lemma AddsLast<V>(t: Tree<V>, path: Path, node: NodeID, created: bool, createDirs: bool)
    requires Valid(t) && 0 < |path| < SIZE_RANGE && Room(t, 1) && NodeAt(t, path[..|path| - 1]) == Some(node) && IsDict(t, node) && !IsValue(t, node)
    ensures AddsFrom(t, path, |path| - 1, createDirs, TraceFrom(t, path, |path| - 1, node, created, NodeAdder(createDirs), false))
  {
    var name := path[|path| - 1];
    var adder := NodeAdder(createDirs);
    assert adder(|path| - 1, |path|, node, created) == CreateValue;
    assert ValueAt(t, path[..|path| - 1]) == None;
    var added := AddOutcome(t, node, name, Value);
    assert adder(|path|, |path|, added.id, added.result == OK) == if added.result == OK then Proceed else StopTrace;
    assert TraceFrom(t, path, |path| - 1, node, created, adder, false) ==
           Traced(if added.result == OK then OK else VisitorError, added.tree, Some(added.id));
    if name !in Children(t, node) {
      LastIsAdded(t, path, node);
    }
  }

  lemma LastIsAdded<V>(t: Tree<V>, path: Path, node: NodeID)
    requires Valid(t) && path != [] && Room(t, 1) && NodeAt(t, path[..|path| - 1]) == Some(node) && IsDict(t, node)
    requires path[|path| - 1] !in Children(t, node)
    ensures var t', id := Added(t, node, path[|path| - 1], Value), FreshID(t, Value);
            && Valid(t') && Issued(id) && IsValue(t', id) && OneMoreLeaf(t, t')
            && NodeAt(t', path) == Some(id) && ValueAt(t', path) == Some(None) && NodeAt(t, path) == None
            && (forall q :: q != path ==> ValueAt(t', q) == ValueAt(t, q))
  {
    var name := path[|path| - 1];
    var t' := Added(t, node, name, Value);
    AddedValid(t, node, name, Value);
    AddedWalk(t, node, name, Value, path);
    AddedNodes(t, node, name, Value);
    FreshIsNew(t, Value);
    forall q | q != [] && q[|q| - 1] == name && NodeAt(t, q[..|q| - 1]) == Some(node) ensures q == path {
      PathsAreUnique(t, q[..|q| - 1], path[..|path| - 1]);
      assert q == q[..|q| - 1] + [name] && path == path[..|path| - 1] + [name];
    }
    forall q | q != path ensures ValueAt(t', q) == ValueAt(t, q) {
      AddedValues(t, node, name, Value, q);
    }
  }

  /** A directory made on the way changes no value, and nothing is below it yet. */
  lemma AddsDirectory<V>(t: Tree<V>, path: Path, i: nat, node: NodeID)
    requires Valid(t) && i < |path| - 1 && Room(t, |path| - i) && NodeAt(t, path[..i]) == Some(node) && IsDict(t, node) && !IsValue(t, node)
    requires path[i] !in Children(t, node)
    ensures var t' := Added(t, node, path[i], Dictionary);
            && Valid(t') && Room(t', |path| - i - 1) && NodeAt(t', path[..i + 1]) == Some(FreshID(t, Dictionary))
            && NodeAt(t', path) == None && !ValueOnTheWay(t', path, i + 1)
            && (forall q :: ValueAt(t', q) == ValueAt(t, q))
    ensures NodeAt(t, path) == None && !ValueOnTheWay(t, path, i)
  {
    var t', id := Added(t, node, path[i], Dictionary), FreshID(t, Dictionary);
    AddedValid(t, node, path[i], Dictionary);
    FreshIsNew(t, Dictionary);
    AddedNodes(t, node, path[i], Dictionary);
    AddedWalk(t, node, path[i], Dictionary, path[..i + 1]);
    assert path[..i + 1][..i] == path[..i];
    forall q ensures ValueAt(t', q) == ValueAt(t, q) {
      AddedValues(t, node, path[i], Dictionary, q);
    }
    NoWayOn(t, path, i + 1);
    NextStep(t', path, i + 1, id);
    NoWayOn(t', path, i + 2);
    forall j | i < j < |path| ensures ValueAt(t, path[..j]) == None {
      assert path[..j][..i + 1] == path[..i + 1];
      NoWayOn(t, path[..j], i + 1);
    }
  }

  /** Adding succeeds exactly if the full path has no node and no proper prefix is a value,
      or, without directory creation, if the directory is there. Success changes the lookup of
      that path only; failure leaves the tree as it was. */
  lemma AddRefinesMap<V>(t: Tree<V>, path: Path, createDirs: bool)
    requires Valid(t) && |path| < SIZE_RANGE && Room(t, |path|)
    ensures var r := AddPath(t, path, createDirs);
            && (r.result == OK <==> CanAdd(t, path, createDirs))
            && (r.result != OK ==> r.tree == t)
            && (r.result == OK ==>
                 && Valid(r.tree) && r.last.Some? && IsValue(r.tree, r.last.value) && Issued(r.last.value)
                 && NodeAt(r.tree, path) == r.last && ValueAt(r.tree, path) == Some(None)
                 && OneMoreLeaf(t, r.tree) && r.last.value == FreshID(t, Value)
                 && forall q :: q != path ==> ValueAt(r.tree, q) == ValueAt(t, q))
  {
    assert path[..0] == [];
    if path != [] { AddsFromHere(t, path, 0, NODE_ROOT, false, createDirs); }
  }

  // ----- a path once taken -----

  lemma {:induction false} TakenPathFailsFrom<V>(t: Tree<V>, path: Path, i: nat, node: NodeID, created: bool, createDirs: bool)
    requires i <= |path| && 0 < |path| < SIZE_RANGE && NodeAt(t, path).Some? && NodeAt(t, path[..i]) == Some(node)
    requires i == |path| ==> !created
    ensures TraceFrom(t, path, i, node, created, NodeAdder(createDirs), false).result != OK
    decreases |path| - i
  {
    if i < |path| {
      if path[i] !in Children(t, node) {
        NextStep(t, path, i, node);
        NoWayOn(t, path, i + 1);
      }
      NextStep(t, path, i, node);
      TakenPathFailsFrom(t, path, i + 1, Children(t, node)[path[i]], false, createDirs);
      var action := NodeAdder(createDirs)(i, |path|, node, created);
      assert action != Proceed && action != StopTrace;
      assert IsDict(t, node) && !IsValue(t, node);
    } else {
      assert NodeAdder(createDirs)(i, |path|, node, false) == StopTrace;
    }
  }

  /** Where there is a node already, valid or not, nothing is added. */
  lemma TakenPathFails<V>(t: Tree<V>, path: Path, createDirs: bool)
    requires 0 < |path| < SIZE_RANGE && NodeAt(t, path).Some?
    ensures AddPath(t, path, createDirs).result != OK
  {
    assert path[..0] == [];
    TakenPathFailsFrom(t, path, 0, NODE_ROOT, false, createDirs);
  }

  lemma {:induction false} WrittenRemovalKeepsWay<V>(t: Tree<V>, id: NodeID, p: Path, k: nat)
    requires Valid(t) && Issued(id) && IsValue(t, id) && NodeAt(t, p) == Some(id) && k <= |p|
    ensures NodeAt(Removed(t, id, false), p[..k]) == NodeAt(t, p[..k])
    decreases k
  {
    RemovedNodes(t, id, false);
    AnalyzeInverse(id);
    if k > 0 {
      WrittenRemovalKeepsWay(t, id, p, k - 1);
      var q := p[..k];
      assert q[..k - 1] == p[..k - 1];
      if NodeAt(t, q) == None {
        NoWayOn(t, p, k);
      }
      var up := NodeAt(t, p[..k - 1]).value;
      assert IsChild(t, up, p[k - 1], NodeAt(t, q).value);
      EntryKept(t, id, p, k);
    }
  }

  /** The entry on the way to the value is none of those forgotten. */
  lemma EntryKept<V>(t: Tree<V>, id: NodeID, p: Path, k: nat)
    requires Valid(t) && Issued(id) && IsValue(t, id) && NodeAt(t, p) == Some(id) && 0 < k <= |p| && NodeAt(t, p[..k]).Some? && NodeAt(t, p[..k - 1]).Some?
    ensures NodeAt(t, p[..k - 1]).value != id
    ensures NodeAt(t, p[..k - 1]).value == ParentOf(t, id) ==> NodeAt(t, p[..k]).value != AnalyzeID(id).1
  {
    AnalyzeInverse(id);
    if NodeAt(t, p[..k - 1]).value == id {
      PathsAreUnique(t, p[..k - 1], p);
    }
    assert p[..|p|] == p;
    assert IsChild(t, NodeAt(t, p[..|p| - 1]).value, p[|p| - 1], id);
    if NodeAt(t, p[..k - 1]).value == ParentOf(t, id) {
      PathsAreUnique(t, p[..k - 1], p[..|p| - 1]);
      assert |p[..k - 1]| == |p[..|p| - 1]|;
      assert p[..k] == p;
    }
  }

  /** As written, removal blocks the path for good: the entry left behind makes every later
      addition there fail. As intended, the path is free again. */
  lemma RemovalFreesPathIffIntended<V>(t: Tree<V>, id: NodeID, p: Path, intended: bool)
    requires Valid(t) && Issued(id) && IsValue(t, id) && NodeAt(t, p) == Some(id) && |p| < SIZE_RANGE && Room(t, |p|)
    ensures AddPath(Removed(t, id, intended), p, true).result == OK <==> intended
  {
    if intended {
      RemovedRoom(t, id, p);
      AddRefinesMap(Removed(t, id, true), p, true);
    } else {
      WrittenRemovalKeepsWay(t, id, p, |p|);
      assert p[..|p|] == p;
      assert p != [];
      TakenPathFails(Removed(t, id, false), p, true);
    }
  }

  lemma RemovedRoom<V>(t: Tree<V>, id: NodeID, p: Path)
    requires Valid(t) && Issued(id) && IsValue(t, id) && NodeAt(t, p) == Some(id) && Room(t, |p|)
    ensures var t' := Removed(t, id, true); Valid(t') && Room(t', |p|) && CanAdd(t', p, true)
  {
    var t' := Removed(t, id, true);
    RemovedValid(t, id);
    RemovedNodes(t, id, true);
    RemovedWalk(t, id, p);
    forall j | 0 <= j < |p| ensures ValueAt(t', p[..j]) == None {
      RemovedWalk(t, id, p[..j]);
      if NodeAt(t, p[..j]).Some? && IsValue(t', NodeAt(t, p[..j]).value) {
        NextStep(t, p, j, NodeAt(t, p[..j]).value);
        WalkIsNode(t, p[..j]);
        NoWayOn(t, p, j + 1);
      }
    }
  }

  // ----- the loop -----

  /** The trace for a tree that may be added to. */
  method TracePath<V>(tree: ObjectTree<V>, path: Path, callback: Callback) returns (result: NodeResult, last: Option<NodeID>)
    requires Valid(tree.Abstract()) && tree.nextDict + |path| <= VALUE_BIT && tree.nextVal + |path| <= VALUE_BIT
    modifies tree
    ensures Traced(result, tree.Abstract(), last) == TraceFrom(old(tree.Abstract()), path, 0, NODE_ROOT, false, callback, false)
  {
    var nodeId, pathIdx, wasCreated := NODE_ROOT, 0, false;
    last := None;
    while pathIdx < |path|
      invariant pathIdx <= |path| && Valid(tree.Abstract())
      invariant tree.nextDict + (|path| - pathIdx) <= VALUE_BIT && tree.nextVal + (|path| - pathIdx) <= VALUE_BIT
      invariant TraceFrom(old(tree.Abstract()), path, 0, NODE_ROOT, false, callback, false) ==
                TraceFrom(tree.Abstract(), path, pathIdx, nodeId, wasCreated, callback, false)
    {
      var nextAction := callback(pathIdx, |path|, nodeId, wasCreated);
      wasCreated := false;
      if nextAction == StopTrace {
        return VisitorError, last;
      }
      if nextAction == CreateDictionary || nextAction == CreateValue {
        result, nodeId := tree.AddNode(nodeId, path[pathIdx], if nextAction == CreateDictionary then Dictionary else Value);
        if result == OK {
          wasCreated := true;
        } else if result != DuplicateName {
          return result, last;
        }
      } else {
        result, nodeId := tree.FindChild(nodeId, path[pathIdx]);
        if result != OK {
          return result, last;
        }
      }
      pathIdx := pathIdx + 1;
    }
    last := Some(nodeId);
    result := if callback(pathIdx, |path|, nodeId, wasCreated) == Proceed then OK else VisitorError;
  }

  /** The trace for a tree that is const: what would add to it stops the trace. */
  method TracePathConst<V>(tree: ObjectTree<V>, path: Path, callback: Callback) returns (result: NodeResult, last: Option<NodeID>)
    ensures Traced(result, tree.Abstract(), last) == TraceFrom(tree.Abstract(), path, 0, NODE_ROOT, false, callback, true)
  {
    var nodeId, pathIdx := NODE_ROOT, 0;
    last := None;
    while pathIdx < |path|
      invariant pathIdx <= |path|
      invariant TraceFrom(tree.Abstract(), path, 0, NODE_ROOT, false, callback, true) ==
                TraceFrom(tree.Abstract(), path, pathIdx, nodeId, false, callback, true)
    {
      var nextAction := callback(pathIdx, |path|, nodeId, false);
      if nextAction == StopTrace || nextAction == CreateDictionary || nextAction == CreateValue {
        return VisitorError, last;
      }
      result, nodeId := tree.FindChild(nodeId, path[pathIdx]);
      if result != OK {
        return result, last;
      }
      pathIdx := pathIdx + 1;
    }
    last := Some(nodeId);
    result := if callback(pathIdx, |path|, nodeId, false) == Proceed then OK else VisitorError;
  }
}
