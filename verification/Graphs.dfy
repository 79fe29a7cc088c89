/** Finite dependency graphs: a vertex maps to the set of vertices it depends on.
    Shared by the task executor and by the startup manager. */
module Graphs {
  import opened Collections

  type Vertex = nat

  type Graph = map<Vertex, set<Vertex>>

  ghost predicate Closed(g: Graph) {
    forall v, w {:trigger w in g[v]} :: v in g && w in g[v] ==> w in g
  }

  /** Each vertex of the path depends on the next one. */
  ghost predicate IsPath(g: Graph, p: seq<Vertex>) {
    && |p| > 0
    && (forall i :: 0 <= i < |p| ==> p[i] in g)
    && forall i, j :: 0 <= i < j < |p| && j == i + 1 ==> p[j] in g[p[i]]
  }

  ghost predicate IsCycle(g: Graph, p: seq<Vertex>) {
    IsPath(g, p) && |p| >= 2 && p[0] == p[|p| - 1]
  }

  ghost predicate OnCycle(g: Graph, v: Vertex) {
    exists p :: IsCycle(g, p) && p[0] == v
  }

  /** v itself or one of its transitive dependencies lies on a cycle. */
  ghost predicate Blocked(g: Graph, v: Vertex) {
    exists p :: IsPath(g, p) && p[0] == v && OnCycle(g, p[|p| - 1])
  }

  ghost predicate Acyclic(g: Graph) {
    forall v :: v in g ==> !OnCycle(g, v)
  }

  ghost predicate DepsBefore(g: Graph, order: seq<Vertex>, i: nat)
    requires i < |order|
  {
    order[i] in g && g[order[i]] <= Range(order[..i])
  }

  /** A duplicate-free listing of vertices in which dependencies come first. */
  ghost predicate TopoOrder(g: Graph, order: seq<Vertex>) {
    && NoDup(order)
    && forall i {:trigger DepsBefore(g, order, i)} :: 0 <= i < |order| ==> DepsBefore(g, order, i)
  }

  ghost predicate AwaitsOutside(g: Graph, order: seq<Vertex>, v: Vertex)
    requires v in g
  {
    !(g[v] <= Range(order))
  }

  /** No vertex outside the listing has all its dependencies inside it. */
  ghost predicate Exhausted(g: Graph, order: seq<Vertex>) {
    forall v {:trigger AwaitsOutside(g, order, v)} :: v in g && v !in order ==> AwaitsOutside(g, order, v)
  }

  lemma SuffixIsPath(g: Graph, p: seq<Vertex>, i: nat)
    requires IsPath(g, p) && i < |p|
    ensures IsPath(g, p[i..])
  {
  }

  /** A walk that starts at position i of a dependency-first listing only moves
      to smaller positions. */
  lemma {:induction false} PathDescends(g: Graph, order: seq<Vertex>, p: seq<Vertex>, i: nat) returns (j: nat)
    requires TopoOrder(g, order) && IsPath(g, p)
    requires i < |order| && p[0] == order[i]
    ensures j + |p| - 1 <= i && order[j] == p[|p| - 1]
  {
    if |p| == 1 {
      j := i;
    } else {
      assert DepsBefore(g, order, i);
      assert p[1] in g[p[0]];
      assert p[1] in order[..i];
      var k :| 0 <= k < i && order[k] == p[1];
      SuffixIsPath(g, p, 1);
      j := PathDescends(g, order, p[1..], k);
    }
  }

  lemma ListedIsNotBlocked(g: Graph, order: seq<Vertex>, v: Vertex)
    requires TopoOrder(g, order) && v in order
    ensures !Blocked(g, v)
  {
    if Blocked(g, v) {
      var p :| IsPath(g, p) && p[0] == v && OnCycle(g, p[|p| - 1]);
      var i :| 0 <= i < |order| && order[i] == v;
      var j := PathDescends(g, order, p, i);
      var c :| IsCycle(g, c) && c[0] == p[|p| - 1];
      var k := PathDescends(g, order, c, j);
    }
  }

  /** A walk whose next vertex was already visited leads to a cycle. */
  lemma RepeatClosesCycle(g: Graph, p: seq<Vertex>, i: nat)
    requires IsPath(g, p) && i < |p| && p[i] in g[p[|p| - 1]]
    ensures Blocked(g, p[0])
  {
    var q := p + [p[i]];
    assert IsPath(g, q);
    SuffixIsPath(g, q, i);
    assert IsCycle(g, q[i..]);
    assert IsPath(g, p[..i + 1]);
  }

  ghost predicate DependsInto(g: Graph, s: set<Vertex>, v: Vertex) {
    v in g && exists w :: w in s && w in g[v]
  }

  /** Every vertex of s depends on some vertex of s. */
  ghost predicate SelfSustaining(g: Graph, s: set<Vertex>) {
    forall v {:trigger DependsInto(g, s, v)} :: v in s ==> DependsInto(g, s, v)
  }

  lemma ExtendWalk(g: Graph, s: set<Vertex>, p: seq<Vertex>) returns (w: Vertex)
    requires SelfSustaining(g, s)
    requires IsPath(g, p) && Range(p) <= s
    ensures w in s && w in g[p[|p| - 1]]
    ensures IsPath(g, p + [w]) && Range(p + [w]) <= s
  {
    assert p[|p| - 1] in Range(p);
    assert DependsInto(g, s, p[|p| - 1]);
    w :| w in s && w in g[p[|p| - 1]];
    assert DependsInto(g, s, w);
  }

  lemma WalkFitsIn(s: set<Vertex>, p: seq<Vertex>)
    requires NoDup(p) && Range(p) <= s
    ensures |p| <= |s|
  {
    RangeSize(p);
    SubsetSize(Range(p), s);
  }

  /** Pigeonhole: extending a repetition-free walk inside s must eventually repeat. */
  lemma {:induction false} WalkFindsCycle(g: Graph, s: set<Vertex>, p: seq<Vertex>)
    requires SelfSustaining(g, s)
    requires IsPath(g, p) && NoDup(p) && Range(p) <= s
    ensures Blocked(g, p[0])
    decreases |s| - |p|
  {
    var w := ExtendWalk(g, s, p);
    if w in p {
      var i :| 0 <= i < |p| && p[i] == w;
      RepeatClosesCycle(g, p, i);
    } else {
      WalkFitsIn(s, p + [w]);
      WalkFindsCycle(g, s, p + [w]);
    }
  }

  /** If every vertex of s depends on some vertex of s, then each of them reaches a cycle. */
  lemma StuckSetIsBlocked(g: Graph, s: set<Vertex>, v: Vertex)
    requires SelfSustaining(g, s) && v in s
    ensures Blocked(g, v)
  {
    assert DependsInto(g, s, v);
    var p := [v];
    WalkFitsIn(s, p);
    WalkFindsCycle(g, s, p);
  }

  lemma OnCycleIsBlocked(g: Graph, v: Vertex)
    requires v in g && OnCycle(g, v)
    ensures Blocked(g, v)
  {
    assert IsPath(g, [v]);
    assert [v][|[v]| - 1] == v;
  }

  lemma RestIsSelfSustaining(g: Graph, order: seq<Vertex>)
    requires Closed(g) && Exhausted(g, order)
    ensures SelfSustaining(g, g.Keys - Range(order))
  {
    var rest := g.Keys - Range(order);
    forall v | v in rest ensures DependsInto(g, rest, v) {
      assert AwaitsOutside(g, order, v);
      var w :| w in g[v] && w !in Range(order);
      assert w in rest;
    }
  }

  /** A dependency-first listing that cannot be extended contains exactly the
      vertices that do not lead to a cycle. */
  lemma ExhaustedOrderIsExact(g: Graph, order: seq<Vertex>)
    requires Closed(g) && TopoOrder(g, order) && Exhausted(g, order)
    ensures forall v :: v in g ==> (v in order <==> !Blocked(g, v))
  {
    RestIsSelfSustaining(g, order);
    forall v | v in g ensures v in order <==> !Blocked(g, v) {
      if v in order {
        ListedIsNotBlocked(g, order, v);
      } else {
        StuckSetIsBlocked(g, g.Keys - Range(order), v);
      }
    }
  }

  lemma AcyclicIffNothingBlocked(g: Graph)
    ensures Acyclic(g) <==> forall v :: v in g ==> !Blocked(g, v)
  {
    if v :| v in g && OnCycle(g, v) {
      OnCycleIsBlocked(g, v);
    }
    if v :| v in g && Blocked(g, v) {
      var p :| IsPath(g, p) && p[0] == v && OnCycle(g, p[|p| - 1]);
      assert p[|p| - 1] in g;
    }
  }

  lemma ListsAllIffSameSize(g: Graph, order: seq<Vertex>)
    requires TopoOrder(g, order)
    ensures |order| == |g| <==> forall v :: v in g ==> v in order
  {
    RangeSize(order);
    forall i | 0 <= i < |order| ensures order[i] in g {
      assert DepsBefore(g, order, i);
    }
    SubsetSize(Range(order), g.Keys);
    assert |g| == |g.Keys|;
    if forall v :: v in g ==> v in order {
      assert Range(order) == g.Keys;
    } else {
      var v :| v in g && v !in order;
      assert v in g.Keys && v !in Range(order);
    }
  }

  /** ... and it lists every vertex exactly when the graph has no cycle. */
  lemma ExhaustedIsCompleteIffAcyclic(g: Graph, order: seq<Vertex>)
    requires Closed(g) && TopoOrder(g, order) && Exhausted(g, order)
    ensures |order| == |g| <==> Acyclic(g)
  {
    ExhaustedOrderIsExact(g, order);
    AcyclicIffNothingBlocked(g);
    ListsAllIffSameSize(g, order);
  }
}
