/** Holder/SharedObjectStore: objects under IDs, tokens and paths, three indexes that must
    agree. Removal from the tree is the intended one. */
module SharedObjectStore {
  import opened Collections
  import opened ObjectTree
  import opened PathLib
  import PathFromString

  type ObjectID = nat
  type Token = nat
  type Object = nat

  const UINT32_MAX: nat := 0xffff_ffff
  const INVALID_TOKEN: Token := 0

  datatype StoredObject = StoredObject(token: Token, objPtr: Object, nodeId: NodeID)

  datatype Store = Store(objects: map<ObjectID, StoredObject>, tokens: map<Token, ObjectID>, tree: Tree<ObjectID>, nextId: ObjectID)

  function EmptyStore(): Store { Store(map[], map[], EmptyTree(), 0) }

  // ----- the three indexes -----

  ghost predicate ObjectOk(s: Store, id: ObjectID)
    requires id in s.objects
  {
    var o := s.objects[id];
    && id < s.nextId && 1 <= o.token <= UINT32_MAX && o.token in s.tokens && s.tokens[o.token] == id
    && Issued(o.nodeId) && IsValue(s.tree, o.nodeId) && s.tree.leaves[AnalyzeID(o.nodeId).1].value == Some(id)
  }

  /** Objects, tokens and value nodes are in bijection. */
  ghost predicate Linked(s: Store) {
    && Valid(s.tree)
    && (forall id {:trigger s.objects[id]} {:trigger id in s.objects} :: id in s.objects ==> ObjectOk(s, id))
    && (forall k {:trigger s.tokens[k]} {:trigger k in s.tokens} :: k in s.tokens ==> s.tokens[k] in s.objects && s.objects[s.tokens[k]].token == k)
    && (forall n {:trigger NodeLinked(s, n)} :: Issued(n) && IsValue(s.tree, n) ==> NodeLinked(s, n))
  }

  ghost predicate NodeLinked(s: Store, n: NodeID) {
    && IsValue(s.tree, n)
    && var v := s.tree.leaves[AnalyzeID(n).1].value;
       v.Some? && v.value in s.objects && s.objects[v.value].nodeId == n
  }

  /** What FindObject hands to its callback. */
  function Lookup(s: Store, path: Path): Option<(ObjectID, Object)> {
    var v := ValueAt(s.tree, path);
    if v.Some? && v.value.Some? && v.value.value in s.objects then Some((v.value.value, s.objects[v.value.value].objPtr)) else None
  }

  function WithObject(s: Store, path: Path, obj: Object, token: Token): Store {
    var r := AddPath(s.tree, path, true);
    if |s.tokens| == UINT32_MAX || r.result != OK || r.last.None? || !IsValue(r.tree, r.last.value) then s
    else StoredAt(s, r.tree, r.last.value, obj, token)
  }

  predicate Fresh(s: Store, token: Token) { 1 <= token <= UINT32_MAX && token !in s.tokens }

  /** Adding succeeds exactly if there are tokens left and the path is free; then the object
      is found at that path, every other path finds what it found before, and the three
      indexes agree. Otherwise nothing changes. */
  lemma AddKeepsLinks(s: Store, path: Path, obj: Object, token: Token)
    requires Linked(s) && |path| < SIZE_RANGE && Room(s.tree, |path|)
    requires |s.tokens| != UINT32_MAX ==> Fresh(s, token)
    ensures var s' := WithObject(s, path, obj, token);
            && Linked(s')
            && if |s.tokens| != UINT32_MAX && CanAdd(s.tree, path, true) then
                 && Lookup(s', path) == Some((s.nextId, obj)) && s'.objects[s.nextId].token == token
                 && forall q :: q != path ==> Lookup(s', q) == Lookup(s, q)
               else s' == s
  {
    AddRefinesMap(s.tree, path, true);
    if |s.tokens| != UINT32_MAX && CanAdd(s.tree, path, true) {
      var r := AddPath(s.tree, path, true);
      FreshLeaf(s.tree);
      StoredLinked(s, r.tree, r.last.value, obj, token);
      forall q ensures Lookup(WithObject(s, path, obj, token), q) == if q == path then Some((s.nextId, obj)) else Lookup(s, q) {
        StoredLookup(s, r.tree, path, r.last.value, obj, token, q);
      }
    }
  }

  /** What the store is after an addition. */
  ghost predicate Extended(s: Store, path: Path, obj: Object, token: Token, s': Store) {
    Entered(s, obj, token, s') && Lookup(s', path) == Some((s.nextId, obj))
  }

  predicate Entered(s: Store, obj: Object, token: Token, s': Store) {
    && s'.nextId == s.nextId + 1 && s'.tokens == s.tokens[token := s.nextId]
    && s'.objects.Keys == s.objects.Keys + {s.nextId} && s'.objects[s.nextId].objPtr == obj && s'.objects[s.nextId].token == token
  }

  lemma AddEnters(s: Store, path: Path, obj: Object, token: Token)
    requires Valid(s.tree) && |path| < SIZE_RANGE && Room(s.tree, |path|) && |s.tokens| != UINT32_MAX && CanAdd(s.tree, path, true)
    ensures Entered(s, obj, token, WithObject(s, path, obj, token))
  {
    var r := AddPath(s.tree, path, true);
    AddedPath(s.tree, path, r);
    StoredEnters(s, r.tree, r.last.value, obj, token);
  }

  lemma AddedPath(t: Tree<ObjectID>, path: Path, r: Traced<ObjectID>)
    requires Valid(t) && |path| < SIZE_RANGE && Room(t, |path|) && CanAdd(t, path, true) && r == AddPath(t, path, true)
    ensures r.result == OK && r.last.Some? && IsValue(r.tree, r.last.value)
  {
    AddRefinesMap(t, path, true);
  }

  lemma StoredEnters(s: Store, tree: Tree<ObjectID>, node: NodeID, obj: Object, token: Token)
    requires IsValue(tree, node)
    ensures Entered(s, obj, token, StoredAt(s, tree, node, obj, token))
  {
  }

  lemma AddExtends(s: Store, path: Path, obj: Object, token: Token)
    requires Linked(s) && |path| < SIZE_RANGE && Room(s.tree, |path|)
    requires |s.tokens| != UINT32_MAX ==> Fresh(s, token)
    ensures var s' := WithObject(s, path, obj, token);
            && Linked(s')
            && if |s.tokens| != 0xffff_ffff && CanAdd(s.tree, path, true) then Extended(s, path, obj, token, s') && token != 0 else s' == s
  {
    AddKeepsLinks(s, path, obj, token);
    if |s.tokens| != UINT32_MAX && CanAdd(s.tree, path, true) {
      AddEnters(s, path, obj, token);
    }
  }

  /** The object stored at a new value node of the tree. */
  function StoredAt(s: Store, tree: Tree<ObjectID>, node: NodeID, obj: Object, token: Token): Store
    requires IsValue(tree, node)
  {
    Store(s.objects[s.nextId := StoredObject(token, obj, node)], s.tokens[token := s.nextId], WithValue(tree, node, s.nextId), s.nextId + 1)
  }

  ghost predicate NewNode(t: Tree<ObjectID>, t': Tree<ObjectID>, node: NodeID) {
    && Valid(t') && OneMoreLeaf(t, t') && Issued(node) && IsValue(t', node) && AnalyzeID(node) == (Value, t.nextVal)
  }

  lemma StoredLinked(s: Store, tree: Tree<ObjectID>, node: NodeID, obj: Object, token: Token)
    requires Linked(s) && NewNode(s.tree, tree, node) && Fresh(s, token)
    ensures Linked(StoredAt(s, tree, node, obj, token))
  {
    var s' := StoredAt(s, tree, node, obj, token);
    WithValueValid(tree, node, s.nextId);
    forall id | id in s'.objects ensures ObjectOk(s', id) {
      assert id != s.nextId ==> ObjectOk(s, id);
    }
    forall k | k in s'.tokens ensures s'.tokens[k] in s'.objects && s'.objects[s'.tokens[k]].token == k {
      assert k != token ==> s.tokens[k] in s.objects && ObjectOk(s, s.tokens[k]);
    }
    forall n | Issued(n) && IsValue(s'.tree, n) ensures NodeLinked(s', n) {
      StoredNode(s, tree, node, obj, token, n);
    }
  }

  lemma StoredNode(s: Store, tree: Tree<ObjectID>, node: NodeID, obj: Object, token: Token, n: NodeID)
    requires Linked(s) && NewNode(s.tree, tree, node) && Issued(n) && IsValue(tree, n)
    ensures NodeLinked(StoredAt(s, tree, node, obj, token), n)
  {
    AnalyzeInverse(n);
    AnalyzeInverse(node);
    if n != node {
      assert NodeLinked(s, n);
      assert ObjectOk(s, s.tree.leaves[AnalyzeID(n).1].value.value);
    }
  }

  lemma FreshLeaf(t: Tree<ObjectID>)
    requires Valid(t) && t.nextVal < VALUE_BIT
    ensures AnalyzeID(FreshID(t, Value)) == (Value, t.nextVal)
  {
    IdsRoundTripIff(Value, t.nextVal);
  }

  lemma StoredLookup(s: Store, tree: Tree<ObjectID>, path: Path, node: NodeID, obj: Object, token: Token, q: Path)
    requires Linked(s) && NewNode(s.tree, tree, node) && NodeAt(tree, path) == Some(node)
    requires q != path ==> ValueAt(tree, q) == ValueAt(s.tree, q)
    ensures Lookup(StoredAt(s, tree, node, obj, token), q) == if q == path then Some((s.nextId, obj)) else Lookup(s, q)
  {
    SetValueAt(tree, node, s.nextId, q);
    if q != path {
      if NodeAt(tree, q) == Some(node) { PathsAreUnique(tree, q, path); }
      LookupIsOld(s, q);
    }
  }

  lemma LookupIsOld(s: Store, q: Path)
    requires Linked(s)
    ensures ValueAt(s.tree, q).Some? ==> ValueAt(s.tree, q).value.Some? && ValueAt(s.tree, q).value.value in s.objects
    ensures ValueAt(s.tree, q).Some? ==> ValueAt(s.tree, q).value.value < s.nextId
  {
    if ValueAt(s.tree, q).Some? {
      WalkIsNode(s.tree, q);
      assert NodeLinked(s, NodeAt(s.tree, q).value);
      assert ObjectOk(s, ValueAt(s.tree, q).value.value);
    }
  }

  function Forgotten(s: Store, token: Token): Store {
    if token !in s.tokens || s.tokens[token] !in s.objects then s
    else
      var id := s.tokens[token];
      var node := s.objects[id].nodeId;
      Store(s.objects - {id}, s.tokens - {token},
            if RemoveOutcome(s.tree, node) == OK then Removed(s.tree, node, true) else s.tree, s.nextId)
  }

  /** Removing takes the object out of all three indexes: no path finds it any more, every
      path that found another object still does. */
  lemma RemoveKeepsLinks(s: Store, token: Token)
    requires Linked(s)
    ensures var s' := Forgotten(s, token);
            && Linked(s')
            && if token in s.tokens then
                 var id := s.tokens[token];
                 && id in s.objects && s'.objects == s.objects - {id} && s'.tokens == s.tokens - {token}
                 && forall q :: Lookup(s', q) == if Lookup(s, q) == Some((id, s.objects[id].objPtr)) then None else Lookup(s, q)
               else s' == s
  {
    if token in s.tokens {
      var s' := Forgotten(s, token);
      var id := s.tokens[token];
      var node := s.objects[id].nodeId;
      assert ObjectOk(s, id);
      RemovedValid(s.tree, node);
      RemovedNodes(s.tree, node, true);
      AnalyzeInverse(node);
      RemovedLinks(s, token);
      forall q ensures Lookup(s', q) == if Lookup(s, q) == Some((id, s.objects[id].objPtr)) then None else Lookup(s, q) {
        ForgottenLookup(s, token, q);
      }
    }
  }

  lemma RemovedLinks(s: Store, token: Token)
    requires Linked(s) && token in s.tokens
    ensures Linked(Forgotten(s, token))
  {
    var s' := Forgotten(s, token);
    var id := s.tokens[token];
    var node := s.objects[id].nodeId;
    assert ObjectOk(s, id);
    RemovedValid(s.tree, node);
    AnalyzeInverse(node);
    forall i | i in s'.objects ensures ObjectOk(s', i) {
      assert ObjectOk(s, i);
      AnalyzeInverse(s.objects[i].nodeId);
    }
    forall n | Issued(n) && IsValue(s'.tree, n) ensures NodeLinked(s', n) {
      AnalyzeInverse(n);
      assert NodeLinked(s, n);
    }
  }

  lemma ForgottenLookup(s: Store, token: Token, q: Path)
    requires Linked(s) && token in s.tokens
    ensures s.tokens[token] in s.objects
    ensures Lookup(Forgotten(s, token), q) ==
            if Lookup(s, q) == Some((s.tokens[token], s.objects[s.tokens[token]].objPtr)) then None else Lookup(s, q)
  {
    var id := s.tokens[token];
    var node := s.objects[id].nodeId;
    assert ObjectOk(s, id);
    RemovedWalk(s.tree, node, q);
    LookupIsOld(s, q);
    AnalyzeInverse(node);
    if NodeAt(s.tree, q).Some? {
      var n := NodeAt(s.tree, q).value;
      WalkIsNode(s.tree, q);
      AnalyzeInverse(n);
      if IsValue(s.tree, n) {
        assert NodeLinked(s, n);
      }
    }
  }

  // ----- the store -----

  class SharedObjectStore {
    var objStore: map<ObjectID, StoredObject>
    var objTokenMap: map<Token, ObjectID>
    const objTree: ObjectTree<ObjectID>
    var nextId: ObjectID

    function Abstract(): Store reads this, objTree { Store(objStore, objTokenMap, objTree.Abstract(), nextId) }

    constructor ()
      ensures fresh(objTree) && Linked(Abstract()) && Abstract() == EmptyStore()
    {
      objTree := new ObjectTree<ObjectID>();
      objStore, objTokenMap, nextId := map[], map[], 0;
    }

    /** objToken: the first random token that is not in use. */
    method AddObject(path: string, obj: Object, objToken: Token) returns (token: Token)
      requires Linked(Abstract()) && PathFromString.NUL !in path && |path| + 1 < SIZE_RANGE
      requires |objTokenMap| != UINT32_MAX ==> Fresh(Abstract(), objToken)
      requires objTree.nextDict + |path| + 1 <= VALUE_BIT && objTree.nextVal + |path| + 1 <= VALUE_BIT
      modifies this, objTree
      ensures Linked(Abstract()) && Abstract() == WithObject(old(Abstract()), PathFromString.Split(path, '/'), obj, objToken)
      ensures token == if nextId == old(nextId) then INVALID_TOKEN else objToken
      ensures token == 0 <==> |old(objTokenMap)| == 0xffff_ffff || !CanAdd(old(objTree.Abstract()), PathFromString.Split(path, '/'), true)
      ensures token == 0 ==> Abstract() == old(Abstract())
      ensures token != 0 ==>
                var id := old(nextId);
                && token == objToken && nextId == id + 1 && objTokenMap == old(objTokenMap)[objToken := id]
                && objStore.Keys == old(objStore).Keys + {id} && objStore[id].objPtr == obj && objStore[id].token == objToken
                && Lookup(Abstract(), PathFromString.Split(path, '/')) == Some((id, obj))
    {
      var objPath := new PathFromString.PathFromString(path, '/');
      PathFromString.SplitLength(path, '/');
      token := AddAt(objPath.Components(), obj, objToken);
    }

    method AddAt(path: Path, obj: Object, objToken: Token) returns (token: Token)
      requires Linked(Abstract()) && |path| < SIZE_RANGE
      requires |objTokenMap| != UINT32_MAX ==> Fresh(Abstract(), objToken)
      requires objTree.nextDict + |path| <= VALUE_BIT && objTree.nextVal + |path| <= VALUE_BIT && objTree.nextVal < VALUE_BIT
      modifies this, objTree
      ensures Linked(Abstract()) && Abstract() == WithObject(old(Abstract()), path, obj, objToken)
      ensures token == if nextId == old(nextId) then INVALID_TOKEN else objToken
      ensures if |old(objTokenMap)| != 0xffff_ffff && CanAdd(old(objTree.Abstract()), path, true)
              then token == objToken != 0 && Extended(old(Abstract()), path, obj, objToken, Abstract())
              else token == 0 && Abstract() == old(Abstract())
    {
      AddExtends(Abstract(), path, obj, objToken);
      token := PlaceAt(path, obj, objToken);
    }

    method PlaceAt(path: Path, obj: Object, objToken: Token) returns (token: Token)
      requires Valid(objTree.Abstract()) && |path| < SIZE_RANGE
      requires objTree.nextDict + |path| <= VALUE_BIT && objTree.nextVal + |path| <= VALUE_BIT && objTree.nextVal < VALUE_BIT
      modifies this, objTree
      ensures Abstract() == WithObject(old(Abstract()), path, obj, objToken)
      ensures token == if nextId == old(nextId) then INVALID_TOKEN else objToken
    {
      if |objTokenMap| == UINT32_MAX {
        return INVALID_TOKEN;
      }
      AddRefinesMap(objTree.Abstract(), path, true);
      var addResult, nodeId := TracePath(objTree, path, NodeAdder(true));
      if addResult != OK {
        return INVALID_TOKEN;
      }
      StoreAtNode(nodeId.value, obj, objToken);
      token := objToken;
    }

    /** An ID for the object, and its entry in each index. */
    method StoreAtNode(nodeId: NodeID, obj: Object, objToken: Token)
      requires IsValue(objTree.Abstract(), nodeId)
      modifies this, objTree
      ensures Abstract() == StoredAt(old(Abstract()), old(objTree.Abstract()), nodeId, obj, objToken)
    {
      var objId := nextId;
      nextId := nextId + 1;
      var setResult := objTree.SetValue(nodeId, objId);
      objTokenMap := objTokenMap[objToken := objId];
      objStore := objStore[objId := StoredObject(objToken, obj, nodeId)];
    }

    method RemoveObject(objToken: Token) returns (found: bool)
      requires Linked(Abstract())
      modifies this, objTree
      ensures Linked(Abstract()) && Abstract() == Forgotten(old(Abstract()), objToken)
      ensures found <==> objToken in old(objTokenMap)
      ensures found ==> objStore == old(objStore) - {old(objTokenMap)[objToken]} && objTokenMap == old(objTokenMap) - {objToken}
      ensures !found ==> Abstract() == old(Abstract())
    {
      RemoveKeepsLinks(Abstract(), objToken);
      if objToken !in objTokenMap {
        return false;
      }
      var objId := objTokenMap[objToken];
      assert ObjectOk(Abstract(), objId);
      var removed := objTree.RemoveNode(objStore[objId].nodeId);
      objStore := objStore - {objId};
      objTokenMap := objTokenMap - {objToken};
      found := true;
    }

    /** What the callback is given. */
    method GetObject(id: ObjectID) returns (found: bool, objPtr: Object)
      ensures found <==> id in objStore
      ensures found ==> objPtr == objStore[id].objPtr
    {
      found, objPtr := id in objStore, 0;
      if found {
        objPtr := objStore[id].objPtr;
      }
    }

    /** Every path, whether it leads to an object, to a directory or nowhere. */
    method FindObject(path: string) returns (found: bool, id: ObjectID, objPtr: Object)
      requires Linked(Abstract()) && PathFromString.NUL !in path
      ensures Lookup(Abstract(), PathFromString.Split(path, '/')) == if found then Some((id, objPtr)) else None
    {
      var pfs := new PathFromString.PathFromString(path, '/');
      var components := pfs.Components();
      found, id, objPtr := false, 0, 0;
      FindIsLookup(objTree.Abstract(), components);
      var result, node := TracePathConst(objTree, components, NodeFinder());
      if result != OK {
        return;
      }
      var valueResult, objId := objTree.GetValue(node.value);
      LookupIsOld(Abstract(), components);
      if valueResult == OK {
        id := objId.value;
        found, objPtr := GetObject(id);
      }
    }
  }
}
