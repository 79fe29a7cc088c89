/** Holder/ObjectTree: dictionaries and values in two tables, under IDs that tell which. */
module ObjectTree {
  import opened Collections

  type NodeID = nat

  const NODE_ROOT: NodeID := 0
  const VALUE_BIT: nat := 0x1_0000_0000
  const ID_RANGE: nat := 0x1_0000_0000_0000_0000

  datatype NodeType = Dictionary | Value

  datatype NodeResult =
    | OK | InvalidNodeID | NeedDictionary | NeedValue | DuplicateName | NameNotFound
    | RootInvalid | DictEmptyRequired | VisitorError

  // ----- IDs: bit 32 marks a value, and the index is what is below it -----

  predicate HasValueBit(id: NodeID) { (id / VALUE_BIT) % 2 == 1 }

  function AnalyzeID(id: NodeID): (NodeType, nat) {
    if HasValueBit(id) then (Value, id % VALUE_BIT) else (Dictionary, id)
  }

  function SynthesizeID(nodeType: NodeType, idx: nat): NodeID {
    if nodeType == Value && !HasValueBit(idx) then VALUE_BIT + idx else idx
  }

  /** Type and index come back from the ID exactly as long as the index stays clear of the
      marker: for values below it, for dictionaries wherever bit 32 is not set. */
  lemma IdsRoundTripIff(nodeType: NodeType, idx: nat)
    requires idx < ID_RANGE
    ensures AnalyzeID(SynthesizeID(nodeType, idx)) == (nodeType, idx) <==>
            if nodeType == Value then idx < VALUE_BIT else !HasValueBit(idx)
  {
    if nodeType == Value && !HasValueBit(idx) {
      assert (VALUE_BIT + idx) / VALUE_BIT == 1 + idx / VALUE_BIT;
    }
  }

  // ----- the tree -----

  datatype Dict = Dict(parent: NodeID, children: map<string, NodeID>)

  /** A value is not set until SetValue. */
  datatype Leaf<V> = Leaf(parent: NodeID, value: Option<V>)

  datatype Tree<V> = Tree(dicts: map<nat, Dict>, leaves: map<nat, Leaf<V>>, nextDict: nat, nextVal: nat)

  function EmptyTree<V>(): Tree<V> { Tree(map[0 := Dict(NODE_ROOT, map[])], map[], 1, 0) }

  /** No node gets an ID above these; the ones above only repeat values under other IDs. */
  predicate Issued(id: NodeID) { id < 2 * VALUE_BIT }

  predicate IsDict<V>(t: Tree<V>, id: NodeID) { AnalyzeID(id).0 == Dictionary && AnalyzeID(id).1 in t.dicts }

  predicate IsValue<V>(t: Tree<V>, id: NodeID) { AnalyzeID(id).0 == Value && AnalyzeID(id).1 in t.leaves }

  function Children<V>(t: Tree<V>, id: NodeID): map<string, NodeID> {
    if IsDict(t, id) then t.dicts[id].children else map[]
  }

  function ParentOf<V>(t: Tree<V>, id: NodeID): NodeID
    requires IsDict(t, id) || IsValue(t, id)
  {
    if IsDict(t, id) then t.dicts[id].parent else t.leaves[AnalyzeID(id).1].parent
  }

  predicate IsChild<V>(t: Tree<V>, parent: NodeID, name: string, id: NodeID) {
    name in Children(t, parent) && Children(t, parent)[name] == id
  }

  /** Room for one more node of each kind before IDs would collide. */
  predicate HasRoom<V>(t: Tree<V>) { t.nextDict < VALUE_BIT && t.nextVal < VALUE_BIT }

  /** Every entry of a dictionary is a node that names it as parent, under one name; every
      node but the root has its entry. A dictionary is older than what it holds. */
  ghost predicate Valid<V>(t: Tree<V>) {
    && t.nextDict <= VALUE_BIT && t.nextVal <= VALUE_BIT && NODE_ROOT in t.dicts
    && (forall i :: i in t.dicts ==> i < t.nextDict)
    && (forall i :: i in t.leaves ==> i < t.nextVal)
    && (forall p, n, id {:trigger IsChild(t, p, n, id)} :: IsChild(t, p, n, id) ==> EntryOk(t, p, id))
    && (forall p, n, m, id {:trigger IsChild(t, p, n, id), IsChild(t, p, m, id)} :: IsChild(t, p, n, id) && IsChild(t, p, m, id) ==> n == m)
    && (forall id {:trigger HasEntry(t, id)} :: id != NODE_ROOT && Issued(id) && (IsDict(t, id) || IsValue(t, id)) ==> HasEntry(t, id))
  }

  predicate EntryOk<V>(t: Tree<V>, parent: NodeID, id: NodeID) {
    && id != NODE_ROOT && Issued(id) && (IsDict(t, id) || IsValue(t, id)) && ParentOf(t, id) == parent
    && (IsDict(t, id) ==> parent < id)
  }

  ghost predicate HasEntry<V>(t: Tree<V>, id: NodeID) {
    (IsDict(t, id) || IsValue(t, id)) && exists n :: IsChild(t, ParentOf(t, id), n, id)
  }

  /** The node a path leads to. */
  function Walk<V>(t: Tree<V>, from: NodeID, path: seq<string>): Option<NodeID> {
    if path == [] then Some(from)
    else
      var up := Walk(t, from, path[..|path| - 1]);
      if up.Some? && path[|path| - 1] in Children(t, up.value) then Some(Children(t, up.value)[path[|path| - 1]]) else None
  }

  function NodeAt<V>(t: Tree<V>, path: seq<string>): Option<NodeID> { Walk(t, NODE_ROOT, path) }

  /** The tree as a map from paths to values: what the path's value node holds, if it has one. */
  function ValueAt<V>(t: Tree<V>, path: seq<string>): Option<Option<V>> {
    var node := NodeAt(t, path);
    if node.Some? && IsValue(t, node.value) then Some(t.leaves[AnalyzeID(node.value).1].value) else None
  }

  lemma {:induction false} WalkIsNode<V>(t: Tree<V>, path: seq<string>)
    requires Valid(t) && NodeAt(t, path).Some?
    ensures Issued(NodeAt(t, path).value) && (IsDict(t, NodeAt(t, path).value) || IsValue(t, NodeAt(t, path).value))
    ensures path != [] ==> NodeAt(t, path).value != NODE_ROOT
    decreases |path|
  {
    if path != [] {
      var up := NodeAt(t, path[..|path| - 1]).value;
      assert IsChild(t, up, path[|path| - 1], NodeAt(t, path).value);
    }
  }

  /** Different paths lead to different nodes. */
  lemma {:induction false} PathsAreUnique<V>(t: Tree<V>, p: seq<string>, q: seq<string>)
    requires Valid(t) && NodeAt(t, p).Some? && NodeAt(t, p) == NodeAt(t, q)
    ensures p == q
    decreases |p|
  {
    if p == [] || q == [] {
      if p != [] { WalkIsNode(t, p); }
      if q != [] { WalkIsNode(t, q); }
    } else {
      var id := NodeAt(t, p).value;
      var p', q' := p[..|p| - 1], q[..|q| - 1];
      assert IsChild(t, NodeAt(t, p').value, p[|p| - 1], id);
      assert IsChild(t, NodeAt(t, q').value, q[|q| - 1], id);
      PathsAreUnique(t, p', q');
      assert p == p' + [p[|p| - 1]] && q == q' + [q[|q| - 1]];
    }
  }

  // ----- adding a node -----

  function FreshID<V>(t: Tree<V>, nodeType: NodeType): NodeID {
    SynthesizeID(nodeType, if nodeType == Dictionary then t.nextDict else t.nextVal)
  }

  function Created<V>(t: Tree<V>, parent: NodeID, nodeType: NodeType): Tree<V> {
    if nodeType == Dictionary then t.(dicts := t.dicts[t.nextDict := Dict(parent, map[])], nextDict := t.nextDict + 1)
    else t.(leaves := t.leaves[t.nextVal := Leaf(parent, None)], nextVal := t.nextVal + 1)
  }

  function Added<V>(t: Tree<V>, parent: NodeID, name: string, nodeType: NodeType): Tree<V>
    requires IsDict(t, parent)
  {
    var d := t.dicts[parent];
    Created(t.(dicts := t.dicts[parent := d.(children := d.children[name := FreshID(t, nodeType)])]), parent, nodeType)
  }

  datatype AddResult<V> = AddResult(result: NodeResult, id: NodeID, tree: Tree<V>)

  /** A name that is taken yields the node that has it. */
  function AddOutcome<V>(t: Tree<V>, parent: NodeID, name: string, nodeType: NodeType): AddResult<V> {
    if IsValue(t, parent) then AddResult(NeedDictionary, parent, t)
    else if !IsDict(t, parent) then AddResult(InvalidNodeID, parent, t)
    else if name in Children(t, parent) then AddResult(DuplicateName, Children(t, parent)[name], t)
    else AddResult(OK, FreshID(t, nodeType), Added(t, parent, name, nodeType))
  }

  function ChildOutcome<V>(t: Tree<V>, parent: NodeID, name: string): (NodeResult, NodeID) {
    if IsValue(t, parent) then (NeedDictionary, parent)
    else if !IsDict(t, parent) then (InvalidNodeID, parent)
    else if name !in Children(t, parent) then (NameNotFound, parent)
    else (OK, Children(t, parent)[name])
  }

  function WithValue<V>(t: Tree<V>, id: NodeID, value: V): Tree<V>
    requires IsValue(t, id)
  {
    var idx := AnalyzeID(id).1;
    t.(leaves := t.leaves[idx := t.leaves[idx].(value := Some(value))])
  }

  lemma FreshIsNew<V>(t: Tree<V>, nodeType: NodeType)
    requires Valid(t) && HasRoom(t)
    ensures var id := FreshID(t, nodeType);
            && !IsDict(t, id) && !IsValue(t, id) && id != NODE_ROOT && Issued(id) && HasValueBit(id) == (nodeType == Value)
            && AnalyzeID(id) == (nodeType, if nodeType == Dictionary then t.nextDict else t.nextVal)
    ensures forall p, n :: !IsChild(t, p, n, FreshID(t, nodeType))
  {
    IdsRoundTripIff(nodeType, if nodeType == Dictionary then t.nextDict else t.nextVal);
    forall p, n | IsChild(t, p, n, FreshID(t, nodeType)) ensures EntryOk(t, p, FreshID(t, nodeType)) {
    }
  }

  /** The nodes and entries after an addition. */
  lemma AddedNodes<V>(t: Tree<V>, parent: NodeID, name: string, nodeType: NodeType)
    requires Valid(t) && HasRoom(t) && IsDict(t, parent) && name !in Children(t, parent)
    ensures var t', id := Added(t, parent, name, nodeType), FreshID(t, nodeType);
            && (forall x {:trigger IsDict(t', x)} :: IsDict(t', x) <==> IsDict(t, x) || (x == id && nodeType == Dictionary))
            && (forall x {:trigger IsValue(t', x)} :: Issued(x) ==> (IsValue(t', x) <==> IsValue(t, x) || (x == id && nodeType == Value)))
            && (forall x {:trigger ParentOf(t', x)} :: IsDict(t, x) || IsValue(t, x) ==> ParentOf(t', x) == ParentOf(t, x))
            && (IsDict(t', id) || IsValue(t', id)) && ParentOf(t', id) == parent
    ensures var t', id := Added(t, parent, name, nodeType), FreshID(t, nodeType);
            && forall x {:trigger Children(t', x)} :: Children(t', x) == if x == parent then Children(t, x)[name := id] else Children(t, x)
  {
    FreshIsNew(t, nodeType);
    var t', id := Added(t, parent, name, nodeType), FreshID(t, nodeType);
    forall x ensures IsDict(t', x) <==> IsDict(t, x) || (x == id && nodeType == Dictionary) {
      AnalyzeInverse(x);
    }
    forall x | Issued(x) ensures IsValue(t', x) <==> IsValue(t, x) || (x == id && nodeType == Value) {
      AnalyzeInverse(x);
    }
  }

  /** Within the range of valid indexes an ID is its type and index. */
  lemma AnalyzeInverse(id: NodeID)
    ensures AnalyzeID(id).0 == Dictionary ==> AnalyzeID(id).1 == id
    ensures AnalyzeID(id).0 == Value && id < 2 * VALUE_BIT ==> id == VALUE_BIT + AnalyzeID(id).1
  {
  }

  lemma AddedValid<V>(t: Tree<V>, parent: NodeID, name: string, nodeType: NodeType)
    requires Valid(t) && HasRoom(t) && IsDict(t, parent) && name !in Children(t, parent)
    ensures Valid(Added(t, parent, name, nodeType))
  {
    var t', id := Added(t, parent, name, nodeType), FreshID(t, nodeType);
    FreshIsNew(t, nodeType);
    AddedNodes(t, parent, name, nodeType);
    forall p, n, x | IsChild(t', p, n, x) ensures EntryOk(t', p, x) && ((p == parent && n == name) || IsChild(t, p, n, x)) {
      assert if p == parent && n == name then x == id else IsChild(t, p, n, x);
    }
    forall p, n, m, x | IsChild(t', p, n, x) && IsChild(t', p, m, x) ensures n == m {
      assert !IsChild(t, p, n, id) && !IsChild(t, p, m, id);
      assert x != id ==> IsChild(t, p, n, x) && IsChild(t, p, m, x);
    }
    forall x | x != NODE_ROOT && Issued(x) && (IsDict(t', x) || IsValue(t', x)) ensures HasEntry(t', x) {
      if x == id {
        assert IsChild(t', parent, name, id);
      } else {
        assert HasEntry(t, x);
        var n :| IsChild(t, ParentOf(t, x), n, x);
        assert IsChild(t', ParentOf(t', x), n, x);
      }
    }
  }

  /** Only the new entry's own path leads somewhere new. */
  lemma {:induction false} AddedWalk<V>(t: Tree<V>, parent: NodeID, name: string, nodeType: NodeType, q: seq<string>)
    requires Valid(t) && HasRoom(t) && IsDict(t, parent) && name !in Children(t, parent)
    ensures NodeAt(Added(t, parent, name, nodeType), q) ==
            if q != [] && q[|q| - 1] == name && NodeAt(t, q[..|q| - 1]) == Some(parent) then Some(FreshID(t, nodeType)) else NodeAt(t, q)
    decreases |q|
  {
    if q != [] {
      var front := q[..|q| - 1];
      AddedWalk(t, parent, name, nodeType, front);
      FreshIsNew(t, nodeType);
      AddedNodes(t, parent, name, nodeType);
      if NodeAt(t, front).Some? { WalkIsNode(t, front); }
    }
  }

  // ----- removing a node -----

  function Without(children: map<string, NodeID>, id: NodeID): map<string, NodeID> {
    map n | n in children && children[n] != id :: children[n]
  }

  function Erased<V>(t: Tree<V>, id: NodeID): Tree<V> {
    if IsDict(t, id) then t.(dicts := t.dicts - {AnalyzeID(id).1}) else t.(leaves := t.leaves - {AnalyzeID(id).1})
  }

  /** What the parent is told to forget: the node's ID, as intended, or its bare index, as
      written. */
  function ForgottenID(id: NodeID, intended: bool): NodeID { if intended then id else AnalyzeID(id).1 }

  function Removed<V>(t: Tree<V>, id: NodeID, intended: bool): Tree<V>
    requires IsDict(t, id) || IsValue(t, id)
  {
    var parent := ParentOf(t, id);
    Erased(if IsDict(t, parent)
           then t.(dicts := t.dicts[parent := t.dicts[parent].(children := Without(t.dicts[parent].children, ForgottenID(id, intended)))])
           else t, id)
  }

  function RemoveOutcome<V>(t: Tree<V>, id: NodeID): NodeResult {
    if id == NODE_ROOT then RootInvalid
    else if !IsDict(t, id) && !IsValue(t, id) then InvalidNodeID
    else if Children(t, id) != map[] then DictEmptyRequired
    else OK
  }

  lemma ParentIsDict<V>(t: Tree<V>, id: NodeID)
    requires Valid(t) && Issued(id) && id != NODE_ROOT && (IsDict(t, id) || IsValue(t, id))
    ensures IsDict(t, ParentOf(t, id)) && ParentOf(t, id) != id
  {
    assert HasEntry(t, id);
    var n :| IsChild(t, ParentOf(t, id), n, id);
    assert EntryOk(t, ParentOf(t, id), id);
  }

  lemma RemovedNodes<V>(t: Tree<V>, id: NodeID, intended: bool)
    requires Valid(t) && Issued(id) && RemoveOutcome(t, id) == OK
    ensures var t', parent := Removed(t, id, intended), ParentOf(t, id);
            && (forall x {:trigger IsDict(t', x)} :: IsDict(t', x) <==> IsDict(t, x) && x != id)
            && (forall x {:trigger IsValue(t', x)} :: Issued(x) ==> (IsValue(t', x) <==> IsValue(t, x) && x != id))
            && (forall x {:trigger ParentOf(t', x)} :: Issued(x) && x != id && (IsDict(t, x) || IsValue(t, x)) ==> ParentOf(t', x) == ParentOf(t, x))
            && forall x {:trigger Children(t', x)} ::
                 Children(t', x) == if x == id then map[] else if x == parent then Without(Children(t, x), ForgottenID(id, intended)) else Children(t, x)
  {
    ParentIsDict(t, id);
    var t' := Removed(t, id, intended);
    forall x | Issued(x) ensures IsValue(t', x) <==> IsValue(t, x) && x != id {
      AnalyzeInverse(x);
      AnalyzeInverse(id);
    }
    forall x ensures IsDict(t', x) <==> IsDict(t, x) && x != id {
      AnalyzeInverse(x);
    }
  }

  lemma RemovedValid<V>(t: Tree<V>, id: NodeID)
    requires Valid(t) && Issued(id) && RemoveOutcome(t, id) == OK
    ensures Valid(Removed(t, id, true))
  {
    var t' := Removed(t, id, true);
    RemovedNodes(t, id, true);
    ParentIsDict(t, id);
    forall p, n, x | IsChild(t', p, n, x) ensures EntryOk(t', p, x) && IsChild(t, p, n, x) {
      assert IsChild(t, p, n, x);
      assert EntryOk(t, p, x);
    }
    forall x | x != NODE_ROOT && Issued(x) && (IsDict(t', x) || IsValue(t', x)) ensures HasEntry(t', x) {
      assert HasEntry(t, x);
      var n :| IsChild(t, ParentOf(t, x), n, x);
      assert EntryOk(t, ParentOf(t, x), x);
      assert ParentOf(t, x) != id;
      assert IsChild(t', ParentOf(t', x), n, x);
    }
  }

  /** Only the path to the removed node changes. */
  lemma {:induction false} RemovedWalk<V>(t: Tree<V>, id: NodeID, q: seq<string>)
    requires Valid(t) && Issued(id) && RemoveOutcome(t, id) == OK
    ensures NodeAt(Removed(t, id, true), q) == if NodeAt(t, q) == Some(id) then None else NodeAt(t, q)
    decreases |q|
  {
    RemovedNodes(t, id, true);
    if q != [] {
      var front := q[..|q| - 1];
      RemovedWalk(t, id, front);
      if NodeAt(t, q).Some? {
        var up := NodeAt(t, front).value;
        assert IsChild(t, up, q[|q| - 1], NodeAt(t, q).value);
        assert EntryOk(t, up, NodeAt(t, q).value);
      }
    }
  }

  /** As written, removal keeps the tree valid exactly for dictionaries: for a value, no
      entry goes by its bare index but, perhaps, a dictionary's. */
  lemma WrittenRemovalIsValidIff<V>(t: Tree<V>, id: NodeID)
    requires Valid(t) && Issued(id) && RemoveOutcome(t, id) == OK
    ensures Valid(Removed(t, id, false)) <==> IsDict(t, id)
  {
    AnalyzeInverse(id);
    if IsDict(t, id) {
      assert Removed(t, id, false) == Removed(t, id, true);
      RemovedValid(t, id);
    } else {
      DanglingEntry(t, id);
    }
  }

  /** The value's own entry stays behind, and leads nowhere. */
  lemma DanglingEntry<V>(t: Tree<V>, id: NodeID)
    requires Valid(t) && Issued(id) && IsValue(t, id)
    ensures var t' := Removed(t, id, false);
            exists n :: IsChild(t', ParentOf(t, id), n, id) && !EntryOk(t', ParentOf(t, id), id)
    ensures !Valid(Removed(t, id, false))
  {
    var t' := Removed(t, id, false);
    RemovedNodes(t, id, false);
    ParentIsDict(t, id);
    assert HasEntry(t, id);
    var n :| IsChild(t, ParentOf(t, id), n, id);
    AnalyzeInverse(id);
    assert IsChild(t', ParentOf(t, id), n, id);
    assert !EntryOk(t', ParentOf(t, id), id);
  }

  lemma EmptyValid<V>()
    ensures Valid(EmptyTree<V>()) && HasRoom(EmptyTree<V>())
  {
    var t := EmptyTree<V>();
    assert AnalyzeID(NODE_ROOT) == (Dictionary, 0);
    assert forall p :: Children(t, p) == map[];
  }

  /** Two values and a dictionary under the root: removing the second value, as written, makes
      the root forget the dictionary, which has the same index. */
  lemma WrittenRemovalForgetsASibling() returns (t: Tree<int>)
    ensures Valid(t) && RemoveOutcome(t, VALUE_BIT + 1) == OK && IsValue(t, VALUE_BIT + 1)
    ensures NodeAt(t, ["d"]) == Some(1) && IsDict(t, 1)
    ensures NodeAt(Removed(t, VALUE_BIT + 1, false), ["d"]) == None
  {
    EmptyValid<int>();
    var t1 := Added(EmptyTree<int>(), NODE_ROOT, "d", Dictionary);
    AddedValid(EmptyTree<int>(), NODE_ROOT, "d", Dictionary);
    var t2 := Added(t1, NODE_ROOT, "v", Value);
    AddedValid(t1, NODE_ROOT, "v", Value);
    t := Added(t2, NODE_ROOT, "w", Value);
    AddedValid(t2, NODE_ROOT, "w", Value);
    assert AnalyzeID(VALUE_BIT + 1) == (Value, 1);
    assert Children(t, NODE_ROOT) == map["d" := 1, "v" := VALUE_BIT, "w" := VALUE_BIT + 1];
    assert ["d"][..0] == [] && NodeAt(t, []) == Some(0);
    RemovedNodes(t, VALUE_BIT + 1, false);
    assert NodeAt(Removed(t, VALUE_BIT + 1, false), []) == Some(0);
  }

  // ----- setting a value -----

  lemma {:induction false} WithValueWalk<V>(t: Tree<V>, id: NodeID, value: V, q: seq<string>)
    requires IsValue(t, id)
    ensures NodeAt(WithValue(t, id, value), q) == NodeAt(t, q)
    decreases |q|
  {
    if q != [] {
      WithValueWalk(t, id, value, q[..|q| - 1]);
      var t' := WithValue(t, id, value);
      assert forall x :: Children(t', x) == Children(t, x);
    }
  }

  lemma WithValueValid<V>(t: Tree<V>, id: NodeID, value: V)
    requires Valid(t) && IsValue(t, id)
    ensures Valid(WithValue(t, id, value))
  {
    var t' := WithValue(t, id, value);
    assert forall x :: Children(t', x) == Children(t, x);
    forall p, n, x | IsChild(t', p, n, x) ensures EntryOk(t', p, x) && IsChild(t, p, n, x) {
      assert IsChild(t, p, n, x);
    }
    forall x | x != NODE_ROOT && Issued(x) && (IsDict(t', x) || IsValue(t', x)) ensures HasEntry(t', x) {
      assert HasEntry(t, x);
      var n :| IsChild(t, ParentOf(t, x), n, x);
      assert IsChild(t', ParentOf(t', x), n, x);
    }
  }

  /** A value set shows at its path and nowhere else. */
  lemma SetValueAt<V>(t: Tree<V>, id: NodeID, value: V, q: seq<string>)
    requires Valid(t) && Issued(id) && IsValue(t, id)
    ensures ValueAt(WithValue(t, id, value), q) == if NodeAt(t, q) == Some(id) then Some(Some(value)) else ValueAt(t, q)
  {
    WithValueWalk(t, id, value, q);
    if NodeAt(t, q).Some? {
      WalkIsNode(t, q);
      AnalyzeInverse(id);
      AnalyzeInverse(NodeAt(t, q).value);
    }
  }

  // ----- the class -----

  class ObjectTree<V> {
    var dictNodes: map<nat, Dict>
    var valNodes: map<nat, Leaf<V>>
    var nextDict: nat
    var nextVal: nat

    function Abstract(): Tree<V> reads this { Tree(dictNodes, valNodes, nextDict, nextVal) }

    constructor ()
      ensures Abstract() == EmptyTree() && Valid(Abstract())
    {
      dictNodes, valNodes, nextDict, nextVal := map[0 := Dict(NODE_ROOT, map[])], map[], 1, 0;
      new;
      EmptyValid<V>();
    }

    method GetNode(nodeId: NodeID) returns (found: bool, nodeType: NodeType, idx: nat)
      ensures (nodeType, idx) == AnalyzeID(nodeId)
      ensures found <==> IsDict(Abstract(), nodeId) || IsValue(Abstract(), nodeId)
      ensures found ==> (nodeType == Dictionary <==> IsDict(Abstract(), nodeId))
    {
      var id := AnalyzeID(nodeId);
      nodeType, idx := id.0, id.1;
      found := if nodeType == Dictionary then idx in dictNodes else idx in valNodes;
    }

    method CreateNode(parentId: NodeID, nodeType: NodeType) returns (retId: NodeID)
      modifies this
      ensures retId == FreshID(old(Abstract()), nodeType) && Abstract() == Created(old(Abstract()), parentId, nodeType)
      ensures if nodeType == Dictionary
              then retId == old(nextDict) && nextDict == old(nextDict) + 1 && nextVal == old(nextVal)
                   && dictNodes == old(dictNodes)[retId := Dict(parentId, map[])] && valNodes == old(valNodes)
              else (old(nextVal) < 0x1_0000_0000 ==> retId == 0x1_0000_0000 + old(nextVal)) && nextVal == old(nextVal) + 1 && nextDict == old(nextDict)
                   && valNodes == old(valNodes)[old(nextVal) := Leaf(parentId, None)] && dictNodes == old(dictNodes)
    {
      if nodeType == Dictionary {
        retId := SynthesizeID(nodeType, nextDict);
        dictNodes := dictNodes[nextDict := Dict(parentId, map[])];
        nextDict := nextDict + 1;
      } else {
        retId := SynthesizeID(nodeType, nextVal);
        valNodes := valNodes[nextVal := Leaf(parentId, None)];
        nextVal := nextVal + 1;
      }
    }

    method AddNode(parentId: NodeID, nodeName: string, nodeType: NodeType) returns (result: NodeResult, resultId: NodeID)
      requires Valid(Abstract()) && HasRoom(Abstract())
      modifies this
      ensures Valid(Abstract()) && AddResult(result, resultId, Abstract()) == AddOutcome(old(Abstract()), parentId, nodeName, nodeType)
      ensures result == NeedDictionary <==> IsValue(old(Abstract()), parentId)
      ensures result == InvalidNodeID <==> !IsValue(old(Abstract()), parentId) && !IsDict(old(Abstract()), parentId)
      ensures result == DuplicateName <==> IsDict(old(Abstract()), parentId) && nodeName in old(dictNodes)[parentId].children
      ensures result == DuplicateName ==> resultId == old(dictNodes)[parentId].children[nodeName]
      ensures result == OK <==> IsDict(old(Abstract()), parentId) && nodeName !in old(dictNodes)[parentId].children
      ensures result == OK ==>
                var parent := old(dictNodes)[parentId];
                var dicts := old(dictNodes)[parentId := Dict(parent.parent, parent.children[nodeName := resultId])];
                if nodeType == Dictionary
                then resultId == old(nextDict) && dictNodes == dicts[resultId := Dict(parentId, map[])] && valNodes == old(valNodes)
                else resultId == 0x1_0000_0000 + old(nextVal) && dictNodes == dicts && valNodes == old(valNodes)[old(nextVal) := Leaf(parentId, None)]
      ensures result != OK ==> unchanged(this)
    {
      resultId := parentId;
      var found, parentType, idx := GetNode(parentId);
      if !found {
        return InvalidNodeID, resultId;
      }
      if parentType != Dictionary {
        return NeedDictionary, resultId;
      }
      if nodeName in dictNodes[idx].children {
        return DuplicateName, dictNodes[idx].children[nodeName];
      }
      AddedValid(Abstract(), parentId, nodeName, nodeType);
      var d := dictNodes[idx];
      dictNodes := dictNodes[idx := d.(children := d.children[nodeName := FreshID(Abstract(), nodeType)])];
      resultId := CreateNode(parentId, nodeType);
      result := OK;
    }

    /** As intended: the parent forgets the node by its ID. */
    method RemoveNode(nodeId: NodeID) returns (result: NodeResult)
      requires Valid(Abstract()) && Issued(nodeId)
      modifies this`dictNodes, this`valNodes
      ensures result == RemoveOutcome(old(Abstract()), nodeId)
      ensures Valid(Abstract()) && Abstract() == if result == OK then Removed(old(Abstract()), nodeId, true) else old(Abstract())
      ensures result == RootInvalid <==> nodeId == 0
      ensures result == InvalidNodeID <==> nodeId != 0 && !IsDict(old(Abstract()), nodeId) && !IsValue(old(Abstract()), nodeId)
      ensures result == DictEmptyRequired <==> nodeId != 0 && IsDict(old(Abstract()), nodeId) && old(dictNodes)[nodeId].children != map[]
      ensures result == OK || result == RootInvalid || result == InvalidNodeID || result == DictEmptyRequired
      ensures result == OK ==> !IsDict(Abstract(), nodeId) && !IsValue(Abstract(), nodeId)
      ensures result != OK ==> unchanged(this)
    {
      if nodeId == NODE_ROOT {
        return RootInvalid;
      }
      var found, nodeType, idx := GetNode(nodeId);
      if !found {
        return InvalidNodeID;
      }
      if nodeType == Dictionary && dictNodes[idx].children != map[] {
        return DictEmptyRequired;
      }
      ParentIsDict(Abstract(), nodeId);
      RemovedValid(Abstract(), nodeId);
      var parent := if nodeType == Dictionary then dictNodes[idx].parent else valNodes[idx].parent;
      dictNodes := dictNodes[parent := dictNodes[parent].(children := Without(dictNodes[parent].children, nodeId))];
      if nodeType == Dictionary {
        dictNodes := dictNodes - {idx};
      } else {
        valNodes := valNodes - {idx};
      }
      result := OK;
    }

    method FindChild(parentId: NodeID, childName: string) returns (result: NodeResult, childId: NodeID)
      ensures (result, childId) == ChildOutcome(Abstract(), parentId, childName)
      ensures result == NeedDictionary <==> IsValue(Abstract(), parentId)
      ensures result == InvalidNodeID <==> !IsValue(Abstract(), parentId) && !IsDict(Abstract(), parentId)
      ensures result == NameNotFound <==> IsDict(Abstract(), parentId) && childName !in dictNodes[parentId].children
      ensures result == OK <==> IsDict(Abstract(), parentId) && childName in dictNodes[parentId].children
      ensures result == OK ==> childId == dictNodes[parentId].children[childName]
    {
      childId := parentId;
      var found, parentType, idx := GetNode(parentId);
      if !found {
        return InvalidNodeID, childId;
      }
      if parentType != Dictionary {
        return NeedDictionary, childId;
      }
      if childName !in dictNodes[idx].children {
        return NameNotFound, childId;
      }
      return OK, dictNodes[idx].children[childName];
    }

    method GetValue(nodeId: NodeID) returns (result: NodeResult, value: Option<V>)
      ensures result == OK <==> IsValue(Abstract(), nodeId)
      ensures result == OK ==> value == valNodes[AnalyzeID(nodeId).1].value
      ensures result == NeedValue <==> IsDict(Abstract(), nodeId)
      ensures result == InvalidNodeID <==> !IsDict(Abstract(), nodeId) && !IsValue(Abstract(), nodeId)
    {
      value := None;
      var found, nodeType, idx := GetNode(nodeId);
      if !found {
        return InvalidNodeID, value;
      }
      if nodeType != Value {
        return NeedValue, value;
      }
      return OK, valNodes[idx].value;
    }

    method SetValue(nodeId: NodeID, value: V) returns (result: NodeResult)
      modifies this`valNodes
      ensures result == OK <==> IsValue(old(Abstract()), nodeId)
      ensures Abstract() == if result == OK then WithValue(old(Abstract()), nodeId, value) else old(Abstract())
      ensures result == NeedValue <==> IsDict(old(Abstract()), nodeId)
      ensures result == InvalidNodeID <==> !IsDict(old(Abstract()), nodeId) && !IsValue(old(Abstract()), nodeId)
      ensures result == OK ==>
                var idx := nodeId % 0x1_0000_0000; valNodes == old(valNodes)[idx := Leaf(old(valNodes)[idx].parent, Some(value))]
    {
      var found, nodeType, idx := GetNode(nodeId);
      if !found {
        return InvalidNodeID;
      }
      if nodeType != Value {
        return NeedValue;
      }
      valNodes := valNodes[idx := valNodes[idx].(value := Some(value))];
      result := OK;
    }
  }
}
