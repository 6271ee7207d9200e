/** Flipping a physical plan: the edges of the operators reachable from the sink
    are reversed, and the former leaves become the roots. */
module PlanFlip {
  import opened Counting
  import opened Graphs

  // --------------------------------------------------------------- collecting the nodes

  /** The list names every member of the set, each once. */
  ghost predicate Lists(nodes: seq<nat>, visited: set<nat>) {
    && (forall u | u in visited :: u in nodes)
    && (forall i | 0 <= i < |nodes| :: nodes[i] in visited)
    && forall i, j | 0 <= i < j < |nodes| :: nodes[i] != nodes[j]
  }

  /** All children of the visited nodes are visited, except for nodes whose children are being collected. */
  ghost predicate ClosedBut(g: Graph, visited: set<nat>, open: set<nat>) {
    forall u, v | u in visited && u !in open && Edge(g, u, v) :: v in visited
  }

  /** Depth-first search from a node. */
  method CollectNodes(g: Graph, node: nat, visited: set<nat>, allNodes: seq<nat>, ghost root: nat, ghost open: set<nat>)
    returns (visited': set<nat>, allNodes': seq<nat>)
    requires GraphOk(g) && node < |g| && visited <= UpTo(|g|) && Lists(allNodes, visited)
    requires ClosedBut(g, visited, open) && Reaches(g, root, node) && forall u | u in visited :: Reaches(g, root, u)
    ensures visited <= visited' <= UpTo(|g|) && Lists(allNodes', visited') && node in visited'
    ensures ClosedBut(g, visited', open) && forall u | u in visited' :: Reaches(g, root, u)
    decreases UpTo(|g|) - visited, 1
  {
    hide Reaches, Edge;
    visited', allNodes' := visited, allNodes;
    if node !in visited {
      visited', allNodes' := visited + {node}, allNodes + [node];
      assert node in UpTo(|g|) - visited && node !in UpTo(|g|) - visited';
      visited', allNodes' := CollectChildren(g, node, visited', allNodes', root, open);
    }
  }

  /** The children of a node that has just been entered. */
  method CollectChildren(g: Graph, node: nat, visited: set<nat>, allNodes: seq<nat>, ghost root: nat, ghost open: set<nat>)
    returns (visited': set<nat>, allNodes': seq<nat>)
    requires GraphOk(g) && node < |g| && visited <= UpTo(|g|) && Lists(allNodes, visited) && node in visited
    requires ClosedBut(g, visited, open + {node}) && forall u | u in visited :: Reaches(g, root, u)
    ensures visited <= visited' <= UpTo(|g|) && Lists(allNodes', visited')
    ensures ClosedBut(g, visited', open) && forall u | u in visited' :: Reaches(g, root, u)
    decreases UpTo(|g|) - visited, 2
  {
    hide Reaches, Lists;
    visited', allNodes' := visited, allNodes;
    for i := 0 to |g[node]|
      invariant visited <= visited' <= UpTo(|g|) && Lists(allNodes', visited')
      invariant ClosedBut(g, visited', open + {node}) && forall u | u in visited' :: Reaches(g, root, u)
      invariant forall j | 0 <= j < i :: g[node][j] in visited'
    {
      var child := g[node][i];
      assert Edge(g, node, child);
      ReachesOn(g, root, node, child);
      visited', allNodes' := CollectNodes(g, child, visited', allNodes', root, open + {node});
    }
  }

  // ------------------------------------------------------------------ reversing the edges

  function Repeat(u: nat, n: nat): (r: seq<nat>) {
    if n == 0 then [] else Repeat(u, n - 1) + [u]
  }

  function ChildrenOf(g: Graph, u: nat): (r: seq<nat>) {
    if u < |g| then g[u] else []
  }

  /** The parents of `v` among the nodes, each as often as it has `v` as a child. */
  function ParentsOf(g: Graph, nodes: seq<nat>, v: nat): (r: seq<nat>) {
    if nodes == [] then []
    else
      var last := nodes[|nodes| - 1];
      ParentsOf(g, nodes[..|nodes| - 1], v) + Repeat(last, Occurrences(ChildrenOf(g, last), v))
  }

  lemma {:induction false} RepeatCounts(u: nat, n: nat, v: nat)
    ensures Occurrences(Repeat(u, n), v) == if u == v then n else 0
  {
    if n > 0 {
      RepeatCounts(u, n - 1, v);
      OccurrencesExtend(Repeat(u, n - 1), u, v);
    }
  }

  /** Every edge is reversed with its multiplicity, and there are no others. */
  lemma {:induction false} ParentsCount(g: Graph, nodes: seq<nat>, v: nat, u: nat)
    requires forall i, j | 0 <= i < j < |nodes| :: nodes[i] != nodes[j]
    ensures Occurrences(ParentsOf(g, nodes, v), u) == if u in nodes then Occurrences(ChildrenOf(g, u), v) else 0
  {
    hide Occurrences, ChildrenOf;
    if nodes == [] {
      NoOccurrence(u);
    } else {
      var k := |nodes| - 1;
      var rest, last := nodes[..k], nodes[k];
      ParentsCount(g, rest, v, u);
      RepeatCounts(last, Occurrences(ChildrenOf(g, last), v), u);
      OccurrencesConcat(ParentsOf(g, rest, v), Repeat(last, Occurrences(ChildrenOf(g, last), v)), u);
      assert u in nodes <==> u in rest || u == last;
    }
  }

  function Lookup(m: map<nat, seq<nat>>, v: nat): (r: seq<nat>) {
    if v in m then m[v] else []
  }

  lemma RepeatOnce(list: seq<nat>, node: nat, n: nat)
    ensures list + Repeat(node, n) + [node] == list + Repeat(node, n + 1) && Repeat(node, 0) == []
  {
  }

  /** Adds a node behind each of its children. */
  method AddParents(reversed: map<nat, seq<nat>>, node: nat, children: seq<nat>) returns (r: map<nat, seq<nat>>)
    ensures reversed.Keys + {node} <= r.Keys
    ensures forall v: nat :: Lookup(r, v) == Lookup(reversed, v) + Repeat(node, Occurrences(children, v))
  {
    hide Occurrences, Repeat;
    r := if node in reversed then reversed else reversed[node := []];
    assert children[..0] == [];
    forall v: nat ensures Lookup(r, v) == Lookup(reversed, v) + Repeat(node, Occurrences(children[..0], v)) {
      NoOccurrence(v);
      RepeatOnce([], node, 0);
    }
    for i := 0 to |children|
      invariant reversed.Keys + {node} <= r.Keys
      invariant forall v: nat :: Lookup(r, v) == Lookup(reversed, v) + Repeat(node, Occurrences(children[..i], v))
    {
      var child := children[i];
      assert children[..i + 1] == children[..i] + [child];
      ghost var before := r;
      r := r[child := Lookup(r, child) + [node]];
      forall v: nat ensures Lookup(r, v) == Lookup(reversed, v) + Repeat(node, Occurrences(children[..i + 1], v)) {
        OccurrencesExtend(children[..i], child, v);
        RepeatOnce(Lookup(reversed, v), node, Occurrences(children[..i], v));
        assert Lookup(before, v) == Lookup(reversed, v) + Repeat(node, Occurrences(children[..i], v));
      }
    }
    assert children[..|children|] == children;
  }

  /** The node stands in one of the lists under the keys. */
  ghost predicate Appears(reversed: map<nat, seq<nat>>, keys: set<nat>, u: nat) {
    exists v :: v in keys && v in reversed && u in reversed[v]
  }

  /** A node appears in the reversed lists exactly if it had a child. */
  lemma AppearsIfInner(g: Graph, nodes: seq<nat>, reversed: map<nat, seq<nat>>, u: nat)
    requires forall i, j | 0 <= i < j < |nodes| :: nodes[i] != nodes[j]
    requires forall v: nat :: Lookup(reversed, v) == ParentsOf(g, nodes, v)
    ensures Appears(reversed, reversed.Keys, u) <==> u in nodes && ChildrenOf(g, u) != []
  {
    hide ParentsOf, ChildrenOf;
    if Appears(reversed, reversed.Keys, u) {
      var v :| v in reversed && u in reversed[v];
      OccurrencesIn(reversed[v], u);
      assert Lookup(reversed, v) == ParentsOf(g, nodes, v);
      ParentsCount(g, nodes, v, u);
      OccurrencesIn(ChildrenOf(g, u), v);
    }
    if u in nodes && ChildrenOf(g, u) != [] {
      var v := ChildrenOf(g, u)[0];
      OccurrencesIn(ChildrenOf(g, u), v);
      ParentsCount(g, nodes, v, u);
      assert Lookup(reversed, v) == ParentsOf(g, nodes, v);
      OccurrencesIn(Lookup(reversed, v), u);
    }
  }

  function Degree(inDegree: map<nat, nat>, u: nat): (n: nat) {
    if u in inDegree then inDegree[u] else 0
  }

  method AddDegrees(inDegree: map<nat, nat>, parents: seq<nat>) returns (r: map<nat, nat>)
    ensures forall u: nat :: Degree(r, u) == 0 <==> Degree(inDegree, u) == 0 && u !in parents
  {
    r := inDegree;
    for i := 0 to |parents|
      invariant forall u: nat :: Degree(r, u) == 0 <==> Degree(inDegree, u) == 0 && u !in parents[..i]
    {
      r := r[parents[i] := Degree(r, parents[i]) + 1];
      assert parents[..i + 1] == parents[..i] + [parents[i]];
    }
    assert parents[..|parents|] == parents;
  }

  /** The in-degree of a node in the flipped plan is zero exactly if it appears in no list. */
  method CountInDegrees(reversed: map<nat, seq<nat>>) returns (inDegree: map<nat, nat>)
    ensures forall u: nat :: Degree(inDegree, u) == 0 <==> !Appears(reversed, reversed.Keys, u)
  {
    hide Degree;
    inDegree := map[];
    var remaining := reversed.Keys;
    ghost var done: set<nat> := {};
    NoDegrees();
    while remaining != {}
      invariant done !! remaining && done + remaining == reversed.Keys
      invariant forall u: nat :: Degree(inDegree, u) == 0 <==> !Appears(reversed, done, u)
      decreases |remaining|
    {
      var key :| key in remaining;
      inDegree := AddDegrees(inDegree, reversed[key]);
      forall u: nat ensures Appears(reversed, done + {key}, u) <==> Appears(reversed, done, u) || u in reversed[key] {
        AppearsMore(reversed, done, key, u);
      }
      done, remaining := done + {key}, remaining - {key};
    }
    assert done == reversed.Keys;
  }

  lemma NoDegrees()
    ensures forall u: nat :: Degree(map[], u) == 0
  {
  }

  lemma AppearsMore(reversed: map<nat, seq<nat>>, keys: set<nat>, key: nat, u: nat)
    requires key in reversed
    ensures Appears(reversed, keys + {key}, u) <==> Appears(reversed, keys, u) || u in reversed[key]
  {
    if Appears(reversed, keys, u) {
      var v :| v in keys && v in reversed && u in reversed[v];
      assert v in keys + {key};
    }
    if u in reversed[key] {
      assert key in keys + {key};
    }
  }

  method SelectRoots(allNodes: seq<nat>, inDegree: map<nat, nat>) returns (newRoots: seq<nat>)
    requires forall i, j | 0 <= i < j < |allNodes| :: allNodes[i] != allNodes[j]
    ensures forall v: nat :: v in newRoots <==> v in allNodes && Degree(inDegree, v) == 0
    ensures forall i, j | 0 <= i < j < |newRoots| :: newRoots[i] != newRoots[j]
  {
    newRoots := [];
    for i := 0 to |allNodes|
      invariant forall v: nat :: v in newRoots <==> v in allNodes[..i] && Degree(inDegree, v) == 0
      invariant forall k, j | 0 <= k < j < |newRoots| :: newRoots[k] != newRoots[j]
    {
      assert allNodes[..i + 1] == allNodes[..i] + [allNodes[i]];
      if Degree(inDegree, allNodes[i]) == 0 {
        newRoots := newRoots + [allNodes[i]];
      }
    }
    assert allNodes[..|allNodes|] == allNodes;
  }

  /** The flipped plan. */
  ghost predicate Flipped(g: Graph, nodes: set<nat>, h: Graph) {
    && |h| == |g|
    && (forall v: nat | v < |g| && v !in nodes :: h[v] == g[v])
    && (forall u: nat, v: nat | v < |g| && v in nodes ::
          Occurrences(h[v], u) == if u in nodes && u < |g| then Occurrences(g[u], v) else 0)
  }

  class PhysicalPlan {
    var children: Graph

    constructor (children: Graph)
      ensures this.children == children
    {
      this.children := children;
    }

    /** Reverses the edges of all operators that the root reaches, in place, and
        returns the new roots: the former leaves, each once. */
    method Flip(root: nat) returns (newRoots: seq<nat>, ghost nodes: set<nat>)
      requires GraphOk(children) && root < |children|
      modifies this
      ensures forall v: nat :: v in nodes <==> Reaches(old(children), root, v)
      ensures Flipped(old(children), nodes, children) && GraphOk(children)
      ensures forall v: nat :: v in newRoots <==> v in nodes && v < |old(children)| && old(children)[v] == []
      ensures forall i, j | 0 <= i < j < |newRoots| :: newRoots[i] != newRoots[j]
    {
      hide Reaches, Flipped, ParentsOf;
      ghost var g := children;
      var allNodes;
      allNodes, nodes := Collect(root);
      var reversed := ReverseEdges(allNodes);
      var inDegree := CountInDegrees(reversed);
      newRoots := SelectRoots(allNodes, inDegree);
      forall v: nat ensures v in newRoots <==> v in nodes && v < |g| && g[v] == [] {
        AppearsIfInner(g, allNodes, reversed, v);
      }
      SetParents(allNodes, reversed);
      FlippedBy(g, allNodes, nodes, children);
      FlippedIsGraph(g, nodes, children);
    }

    method Collect(root: nat) returns (allNodes: seq<nat>, ghost nodes: set<nat>)
      requires GraphOk(children) && root < |children|
      ensures Lists(allNodes, nodes) && forall v: nat :: v in nodes <==> Reaches(children, root, v)
      ensures forall v | v in allNodes :: v < |children|
    {
      ReachesSelf(children, root);
      var visited;
      visited, allNodes := CollectNodes(children, root, {}, [], root, {});
      nodes := visited;
      forall v: nat | Reaches(children, root, v) ensures v in nodes {
        var path: seq<nat> :| IsPath(children, path) && path[0] == root && path[|path| - 1] == v;
        PathStays(children, path, nodes, |path| - 1);
      }
    }

    /** Builds the reversed edges and clears the old ones on the way. */
    method ReverseEdges(allNodes: seq<nat>) returns (reversed: map<nat, seq<nat>>)
      requires forall v | v in allNodes :: v < |children|
      requires forall i, j | 0 <= i < j < |allNodes| :: allNodes[i] != allNodes[j]
      modifies this
      ensures |children| == |old(children)|
      ensures forall v: nat | v < |children| :: children[v] == if v in allNodes then [] else old(children)[v]
      ensures forall v: nat :: Lookup(reversed, v) == ParentsOf(old(children), allNodes, v)
      ensures forall v | v in allNodes :: v in reversed
    {
      ghost var g := children;
      reversed := map[];
      for i := 0 to |allNodes|
        invariant |children| == |g|
        invariant forall v: nat | v < |g| :: children[v] == if v in allNodes[..i] then [] else g[v]
        invariant forall v: nat :: Lookup(reversed, v) == ParentsOf(g, allNodes[..i], v)
        invariant forall v | v in allNodes[..i] :: v in reversed
      {
        var node := allNodes[i];
        assert node in allNodes && node !in allNodes[..i];
        assert allNodes[..i + 1][..i] == allNodes[..i];
        reversed := AddParents(reversed, node, children[node]);
        children := children[node := []];
      }
      assert allNodes[..|allNodes|] == allNodes;
    }
  
    method SetParents(allNodes: seq<nat>, reversed: map<nat, seq<nat>>)
      requires forall v | v in allNodes :: v < |children| && v in reversed
      modifies this
      ensures |children| == |old(children)|
      ensures forall v: nat | v < |children| :: children[v] == if v in allNodes then reversed[v] else old(children)[v]
    {
      for i := 0 to |allNodes|
        invariant |children| == |old(children)|
        invariant forall v: nat | v < |children| :: children[v] == if v in allNodes[..i] then reversed[v] else old(children)[v]
      {
        var node := allNodes[i];
        assert node in allNodes && allNodes[..i + 1] == allNodes[..i] + [node];
        children := children[node := reversed[node]];
      }
      assert allNodes[..|allNodes|] == allNodes;
    }
  }

  lemma FlippedBy(g: Graph, allNodes: seq<nat>, nodes: set<nat>, h: Graph)
    requires Lists(allNodes, nodes) && |h| == |g|
    requires forall v: nat | v < |g| :: h[v] == if v in allNodes then ParentsOf(g, allNodes, v) else g[v]
    ensures Flipped(g, nodes, h)
  {
    hide ParentsOf, Occurrences;
    forall u: nat, v: nat | v < |g| && v in nodes
      ensures Occurrences(h[v], u) == if u in nodes && u < |g| then Occurrences(g[u], v) else 0
    {
      ParentsCount(g, allNodes, v, u);
      NoOccurrence(v);
    }
  }

  // --------------------------------------------------------------------- theorems

  lemma FlippedEdge(g: Graph, nodes: set<nat>, h: Graph, u: nat, v: nat)
    requires Flipped(g, nodes, h) && u in nodes && v in nodes && u < |g| && v < |g|
    ensures Edge(h, v, u) <==> Edge(g, u, v)
  {
    OccurrencesIn(h[v], u);
    OccurrencesIn(g[u], v);
  }

  /** Every operator of the plan can be reached from some new root. */
  lemma {:induction false} ReachedFromLeaf(g: Graph, nodes: set<nat>, h: Graph, rank: nat -> nat, u: nat) returns (leaf: nat)
    requires Flipped(g, nodes, h) && GraphOk(g) && Acyclic(g, rank) && u in nodes && u < |g|
    requires forall x: nat, y: nat | x in nodes && Edge(g, x, y) :: y in nodes
    ensures leaf in nodes && leaf < |g| && g[leaf] == [] && Reaches(h, leaf, u)
    decreases rank(u)
  {
    hide Reaches, Flipped;
    if g[u] == [] {
      leaf := u;
      ReachesSelf(h, u);
    } else {
      var v := g[u][0];
      assert Edge(g, u, v);
      leaf := ReachedFromLeaf(g, nodes, h, rank, v);
      FlippedEdge(g, nodes, h, u, v);
      ReachesOn(h, leaf, v, u);
    }
  }

  /** The operators that the root reaches: all exist, and their children are among them. */
  ghost predicate IsPlan(g: Graph, root: nat, nodes: set<nat>) {
    GraphOk(g) && root < |g| && forall v: nat :: v in nodes <==> Reaches(g, root, v)
  }

  lemma PlanIsClosed(g: Graph, root: nat, nodes: set<nat>)
    requires IsPlan(g, root, nodes)
    ensures root in nodes && (forall v | v in nodes :: v < |g|)
    ensures forall u: nat, v: nat | u in nodes && Edge(g, u, v) :: v in nodes
  {
    hide Reaches;
    ReachesSelf(g, root);
    forall v | v in nodes ensures v < |g| {
      if v != root {
        var p := LastEdge(g, root, v);
      }
    }
    forall u: nat, v: nat | u in nodes && Edge(g, u, v) ensures v in nodes {
      ReachesOn(g, root, u, v);
    }
  }

  /** An edge of the flipped plan is the reverse of one of the plan. */
  lemma FlippedBack(g: Graph, nodes: set<nat>, h: Graph, u: nat, v: nat)
    requires Flipped(g, nodes, h) && u in nodes && Edge(h, u, v)
    ensures v in nodes && Edge(g, v, u)
  {
    OccurrencesIn(h[u], v);
    assert Occurrences(h[u], v) == if v in nodes && v < |g| then Occurrences(g[v], u) else 0;
    OccurrencesIn(g[v], u);
  }

  lemma FlippedIsGraph(g: Graph, nodes: set<nat>, h: Graph)
    requires GraphOk(g) && Flipped(g, nodes, h)
    ensures GraphOk(h)
  {
    hide Occurrences;
    forall u: nat, v | u < |h| && v in h[u] ensures v < |h| {
      if u in nodes {
        FlippedBack(g, nodes, h, u, v);
      }
    }
  }

  /** The flipped plan, from its only leaf, has the same operators. */
  lemma SameOperators(g: Graph, root: nat, nodes: set<nat>, h: Graph, rank: nat -> nat, leaf: nat, v: nat)
    requires IsPlan(g, root, nodes) && Acyclic(g, rank) && Flipped(g, nodes, h)
    requires leaf in nodes && forall x | x in nodes && x < |g| && g[x] == [] :: x == leaf
    ensures v in nodes <==> Reaches(h, leaf, v)
  {
    hide Flipped;
    PlanIsClosed(g, root, nodes);
    if v in nodes {
      var l := ReachedFromLeaf(g, nodes, h, rank, v);
    }
    if Reaches(h, leaf, v) {
      forall x: nat, y: nat | x in nodes && Edge(h, x, y) ensures y in nodes {
        FlippedBack(g, nodes, h, x, y);
      }
      var path: seq<nat> :| IsPath(h, path) && path[0] == leaf && path[|path| - 1] == v;
      PathStays(h, path, nodes, |path| - 1);
    }
  }

  /** The root is the only operator that has no children in the flipped plan. */
  lemma RootIsOnlyLeaf(g: Graph, root: nat, nodes: set<nat>, h: Graph, rank: nat -> nat, v: nat)
    requires IsPlan(g, root, nodes) && Acyclic(g, rank) && Flipped(g, nodes, h) && v in nodes
    ensures v < |h| == |g| && (h[v] == [] <==> v == root)
  {
    hide Reaches;
    PlanIsClosed(g, root, nodes);
    if v == root {
      if h[v] != [] {
        var p := h[v][0];
        FlippedBack(g, nodes, h, v, p);
        NoWayBack(g, rank, p, root);
      }
    } else {
      var p := LastEdge(g, root, v);
      FlippedEdge(g, nodes, h, p, v);
    }
  }

  /** A plan with one leaf, flipped from its root and then from that leaf: the same
      operators take part, every edge is back with its multiplicity, and the new
      root is the old one. */
  lemma FlipTwice(g: Graph, root: nat, nodes: set<nat>, h: Graph, rank: nat -> nat, leaf: nat, again: set<nat>, k: Graph)
    requires IsPlan(g, root, nodes) && Acyclic(g, rank) && Flipped(g, nodes, h)
    requires leaf in nodes && forall x | x in nodes && x < |g| && g[x] == [] :: x == leaf
    requires (forall v: nat :: v in again <==> Reaches(h, leaf, v)) && Flipped(h, again, k)
    ensures again == nodes && |k| == |g|
    ensures forall u: nat, v: nat | u < |g| :: Occurrences(k[u], v) == Occurrences(g[u], v)
    ensures forall v | v in again :: v < |h| && (h[v] == [] <==> v == root)
  {
    hide Reaches, Acyclic, Occurrences;
    PlanIsClosed(g, root, nodes);
    forall v: nat ensures v in again <==> v in nodes {
      SameOperators(g, root, nodes, h, rank, leaf, v);
    }
    forall u: nat, v: nat | u < |g| ensures Occurrences(k[u], v) == Occurrences(g[u], v) {
      SameEdges(g, root, nodes, h, k, u, v);
    }
    forall v | v in again ensures v < |h| && (h[v] == [] <==> v == root) {
      RootIsOnlyLeaf(g, root, nodes, h, rank, v);
    }
  }

  lemma SameEdges(g: Graph, root: nat, nodes: set<nat>, h: Graph, k: Graph, u: nat, v: nat)
    requires IsPlan(g, root, nodes) && Flipped(g, nodes, h) && Flipped(h, nodes, k) && u < |g|
    ensures Occurrences(k[u], v) == Occurrences(g[u], v)
  {
    hide Reaches, Occurrences;
    PlanIsClosed(g, root, nodes);
    if u in nodes {
      if v in nodes {
        assert Occurrences(h[v], u) == Occurrences(g[u], v);
      } else {
        OccurrencesIn(g[u], v);
      }
    }
  }
}
