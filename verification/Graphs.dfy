/** Graphs as lists of children, and what can be reached in them. */
module Graphs {
  /** The children of each node; nodes are numbered. */
  type Graph = seq<seq<nat>>

  ghost predicate GraphOk(g: Graph) {
    forall u: nat, v | u < |g| && v in g[u] :: v < |g|
  }

  predicate Edge(g: Graph, u: nat, v: nat) {
    u < |g| && v in g[u]
  }

  /** A path along edges. */
  ghost predicate IsPath(g: Graph, path: seq<nat>) {
    path != [] && forall i | 0 <= i < |path| - 1 :: Edge(g, path[i], path[i + 1])
  }

  ghost predicate Reaches(g: Graph, u: nat, v: nat) {
    exists path: seq<nat> :: IsPath(g, path) && path[0] == u && path[|path| - 1] == v
  }

  lemma ReachesSelf(g: Graph, u: nat)
    ensures Reaches(g, u, u)
  {
    assert IsPath(g, [u]);
  }

  lemma ReachesOn(g: Graph, u: nat, v: nat, w: nat)
    requires Reaches(g, u, v) && Edge(g, v, w)
    ensures Reaches(g, u, w)
  {
    var path: seq<nat> :| IsPath(g, path) && path[0] == u && path[|path| - 1] == v;
    var longer := path + [w];
    forall i | 0 <= i < |longer| - 1 ensures Edge(g, longer[i], longer[i + 1]) {
      if i < |path| - 1 {
        assert Edge(g, path[i], path[i + 1]);
      }
    }
    assert IsPath(g, longer);
  }

  lemma {:induction false} PathStays(g: Graph, path: seq<nat>, closed: set<nat>, i: nat)
    requires IsPath(g, path) && path[0] in closed && i < |path|
    requires forall u, v | u in closed && Edge(g, u, v) :: v in closed
    ensures path[i] in closed
  {
    if i > 0 {
      PathStays(g, path, closed, i - 1);
      assert Edge(g, path[i - 1], path[i - 1 + 1]);
    }
  }

  lemma ReachesFirst(g: Graph, u: nat, v: nat, w: nat)
    requires Edge(g, u, v) && Reaches(g, v, w)
    ensures Reaches(g, u, w)
  {
    var path: seq<nat> :| IsPath(g, path) && path[0] == v && path[|path| - 1] == w;
    var longer := [u] + path;
    forall i | 0 <= i < |longer| - 1 ensures Edge(g, longer[i], longer[i + 1]) {
      if i > 0 {
        assert Edge(g, path[i - 1], path[i - 1 + 1]);
      }
    }
    assert IsPath(g, longer);
  }

  /** The last edge of a path that is not trivial. */
  lemma LastEdge(g: Graph, u: nat, v: nat) returns (p: nat)
    requires Reaches(g, u, v) && u != v
    ensures Reaches(g, u, p) && Edge(g, p, v)
  {
    var path: seq<nat> :| IsPath(g, path) && path[0] == u && path[|path| - 1] == v;
    var k := |path| - 1;
    p := path[k - 1];
    assert Edge(g, path[k - 1], path[k - 1 + 1]);
    forall i | 0 <= i < |path[..k]| - 1 ensures Edge(g, path[..k][i], path[..k][i + 1]) {
      assert Edge(g, path[i], path[i + 1]);
    }
    assert IsPath(g, path[..k]);
  }

  /** The node lies on a cycle. */
  ghost predicate OnCycle(g: Graph, c: nat) {
    exists d: nat :: Edge(g, c, d) && Reaches(g, d, c)
  }

  /** What a cycle reaches is some node's child. */
  lemma CycleParent(g: Graph, c: nat, s: nat) returns (p: nat)
    requires OnCycle(g, c) && Reaches(g, c, s)
    ensures Edge(g, p, s)
  {
    if s != c {
      p := LastEdge(g, c, s);
    } else {
      var d: nat :| Edge(g, c, d) && Reaches(g, d, c);
      if d == c {
        p := c;
      } else {
        p := LastEdge(g, d, c);
      }
    }
  }

  ghost predicate HasParentIn(g: Graph, used: set<nat>, y: nat) {
    exists p: nat :: p in used && Edge(g, p, y)
  }

  lemma ParentIn(g: Graph, used: set<nat>, y: nat) returns (p: nat)
    requires HasParentIn(g, used, y)
    ensures p in used && Edge(g, p, y)
  {
    p :| p in used && Edge(g, p, y);
  }

  /** If every node of a set has a parent in it, each of them is reached from a cycle. */
  lemma {:induction false} CycleAbove(g: Graph, used: set<nat>, x: nat, s: nat, below: set<nat>) returns (c: nat)
    requires forall y | y in used :: HasParentIn(g, used, y)
    requires x in used && Reaches(g, x, s) && below <= used && forall y | y in below :: Reaches(g, x, y)
    ensures OnCycle(g, c) && Reaches(g, c, s)
    decreases used - below
  {
    hide Reaches, HasParentIn;
    var p := ParentIn(g, used, x);
    ReachesFirst(g, p, x, s);
    if p in below {
      c := p;
    } else {
      forall y | y in below + {p} ensures Reaches(g, p, y) {
        if y == p {
          ReachesSelf(g, p);
        } else {
          ReachesFirst(g, p, x, y);
        }
      }
      c := CycleAbove(g, used, p, s, below + {p});
    }
  }

  /** Edges lead downwards in some rank. */
  ghost predicate Acyclic(g: Graph, rank: nat -> nat) {
    forall u: nat, v: nat | Edge(g, u, v) :: rank(v) < rank(u)
  }

  lemma {:induction false} PathDescends(g: Graph, rank: nat -> nat, path: seq<nat>, i: nat)
    requires Acyclic(g, rank) && IsPath(g, path) && i < |path|
    ensures rank(path[i]) <= rank(path[0])
  {
    if i > 0 {
      PathDescends(g, rank, path, i - 1);
      assert Edge(g, path[i - 1], path[i - 1 + 1]);
    }
  }

  /** No child of a node leads back to it. */
  lemma NoWayBack(g: Graph, rank: nat -> nat, u: nat, v: nat)
    requires Acyclic(g, rank) && Edge(g, u, v)
    ensures !Reaches(g, v, u)
  {
    if Reaches(g, v, u) {
      var path: seq<nat> :| IsPath(g, path) && path[0] == v && path[|path| - 1] == u;
      PathDescends(g, rank, path, |path| - 1);
    }
  }
}
