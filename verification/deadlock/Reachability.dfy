/** Directed graphs given by successor lists, reachability and strongly connected components. */
module Reachability {

  /** Successor lists; a node without an entry has no successor. */
  type Graph = map<int, seq<int>>

  function Next(g: Graph, u: int): seq<int> {
    if u in g then g[u] else []
  }

  predicate Arc(g: Graph, u: int, v: int) {
    v in Next(g, u)
  }

  predicate IsPath(g: Graph, p: seq<int>) {
    p != [] && forall i :: 0 <= i < |p| - 1 ==> Arc(g, p[i], p[i + 1])
  }

  predicate Joins(g: Graph, p: seq<int>, u: int, v: int) {
    IsPath(g, p) && p[0] == u && p[|p| - 1] == v
  }

  ghost predicate Reach(g: Graph, u: int, v: int) {
    exists p :: Joins(g, p, u, v)
  }

  lemma ReachSelf(g: Graph, u: int)
    ensures Reach(g, u, u)
  {
    assert Joins(g, [u], u, u);
  }

  lemma ReachArc(g: Graph, u: int, v: int)
    requires Arc(g, u, v)
    ensures Reach(g, u, v)
  {
    assert Joins(g, [u, v], u, v);
  }

  lemma ReachTrans(g: Graph, u: int, v: int, w: int)
    requires Reach(g, u, v) && Reach(g, v, w)
    ensures Reach(g, u, w)
  {
    var p :| Joins(g, p, u, v);
    var q :| Joins(g, q, v, w);
    var r := p + q[1..];
    forall i | 0 <= i < |r| - 1
      ensures Arc(g, r[i], r[i + 1])
    {
      if i < |p| - 1 {
      } else {
        assert r[i] == q[i - (|p| - 1)] && r[i + 1] == q[i + 1 - (|p| - 1)];
      }
    }
    assert Joins(g, r, u, w);
  }

  /** A path from inside a set to outside it crosses its border. */
  lemma {:induction false} Border(g: Graph, s: set<int>, u: int, v: int) returns (x: int, y: int)
    requires Reach(g, u, v) && u in s && v !in s
    ensures x in s && y !in s && Arc(g, x, y) && Reach(g, u, x) && Reach(g, y, v)
  {
    var p :| Joins(g, p, u, v);
    var i := 0;
    while p[i + 1] in s
      invariant 0 <= i < |p| - 1
      invariant p[i] in s
      decreases |p| - i
    {
      i := i + 1;
    }
    x, y := p[i], p[i + 1];
    assert Joins(g, p[..i + 1], u, x);
    assert Joins(g, p[i + 1..], y, v);
  }

  ghost predicate Mutual(g: Graph, u: int, v: int) {
    Reach(g, u, v) && Reach(g, v, u)
  }

  /** A strongly connected component: nodes that all reach each other, and all of them. */
  ghost predicate IsComponent(g: Graph, s: set<int>) {
    && s != {}
    && (forall u, v :: u in s && v in s ==> Reach(g, u, v))
    && (forall u, v :: u in s && Mutual(g, u, v) ==> v in s)
  }

  lemma ComponentsEqualOrDisjoint(g: Graph, s: set<int>, t: set<int>, u: int)
    requires IsComponent(g, s) && IsComponent(g, t) && u in s && u in t
    ensures s == t
  {
    forall v | v in s ensures v in t { assert Mutual(g, u, v); }
    forall v | v in t ensures v in s { assert Mutual(g, u, v); }
  }
}
