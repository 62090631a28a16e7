/** Graphs in which every node has at most one successor: each node has one walk, and it ends in a
    simple cycle or at a node without a successor. */
module FunctionalGraphs {
  import opened Sums
  import opened SortedSets
  import opened Reachability

  ghost predicate Functional(g: Graph) {
    forall u :: |Next(g, u)| <= 1
  }

  /** One step along the only arc; a node without a successor stays where it is. */
  function Hop(g: Graph, u: int): int {
    if Next(g, u) == [] then u else Next(g, u)[0]
  }

  function Walk(g: Graph, u: int, n: nat): int {
    if n == 0 then u else Hop(g, Walk(g, u, n - 1))
  }

  lemma {:induction false} WalkAdds(g: Graph, u: int, m: nat, n: nat)
    ensures Walk(g, u, m + n) == Walk(g, Walk(g, u, m), n)
  {
    if n > 0 {
      WalkAdds(g, u, m, n - 1);
      assert m + n - 1 == m + (n - 1);
    }
  }

  lemma {:induction false} WalkReaches(g: Graph, u: int, n: nat)
    ensures Reach(g, u, Walk(g, u, n))
  {
    if n == 0 {
      ReachSelf(g, u);
    } else {
      WalkReaches(g, u, n - 1);
      var v := Walk(g, u, n - 1);
      if Next(g, v) != [] {
        assert Arc(g, v, Hop(g, v));
        ReachArc(g, v, Hop(g, v));
        ReachTrans(g, u, v, Hop(g, v));
      }
    }
  }

  /** A path is a walk. */
  lemma {:induction false} PathIsWalk(g: Graph, p: seq<int>, i: nat)
    requires Functional(g) && IsPath(g, p) && i < |p|
    ensures p[i] == Walk(g, p[0], i)
  {
    if i > 0 {
      PathIsWalk(g, p, i - 1);
      assert Arc(g, p[i - 1], p[i]);
    }
  }

  lemma ReachIsWalk(g: Graph, u: int, v: int) returns (n: nat)
    requires Functional(g) && Reach(g, u, v)
    ensures Walk(g, u, n) == v
  {
    var p :| Joins(g, p, u, v);
    n := |p| - 1;
    PathIsWalk(g, p, n);
  }

  /** The walk from u comes back to u after n steps, all of them along arcs. */
  ghost predicate Returns(g: Graph, u: int, n: nat) {
    n > 0 && Walk(g, u, n) == u && Next(g, u) != []
  }

  lemma {:induction false} ReturnsOften(g: Graph, u: int, n: nat, k: nat)
    requires Walk(g, u, n) == u
    ensures Walk(g, u, k * n) == u
    decreases k
  {
    if k > 0 {
      ReturnsOften(g, u, n, k - 1);
      WalkAdds(g, u, (k - 1) * n, n);
      assert k * n == (k - 1) * n + n;
    }
  }

  /** Only the remainder counts. */
  lemma WalkModulo(g: Graph, u: int, n: nat, k: nat)
    requires Returns(g, u, n)
    ensures Walk(g, u, k) == Walk(g, u, k % n)
  {
    ReturnsOften(g, u, n, k / n);
    WalkAdds(g, u, k / n * n, k % n);
    assert k == k / n * n + k % n;
  }

  lemma LeastReturn(g: Graph, u: int, n: nat) returns (least: nat)
    requires Returns(g, u, n)
    ensures Returns(g, u, least) && forall k :: 0 < k < least ==> !Returns(g, u, k)
  {
    least := 1;
    while !Returns(g, u, least)
      invariant 0 < least <= n && forall k :: 0 < k < least ==> !Returns(g, u, k)
      decreases n - least
    {
      least := least + 1;
    }
  }

  /** The nodes on the walk from u, n of them. */
  ghost function Round(g: Graph, u: int, n: nat): seq<int> {
    seq(n, i requires 0 <= i => Walk(g, u, i))
  }

  /** c goes around: each node has exactly the next one as its successor, the last one the first. */
  ghost predicate SimpleCycle(g: Graph, c: seq<int>) {
    && c != []
    && (forall i, j :: 0 <= i < j < |c| ==> c[i] != c[j])
    && forall i :: 0 <= i < |c| ==> Next(g, c[i]) == [c[if i + 1 < |c| then i + 1 else 0]]
  }

  lemma NoRepeat(g: Graph, u: int, n: nat, i: nat, j: nat)
    requires Returns(g, u, n) && (forall k :: 0 < k < n ==> !Returns(g, u, k)) && i < j < n
    ensures Walk(g, u, i) != Walk(g, u, j)
  {
    assert !Returns(g, u, i + (n - j));
    WalkAdds(g, u, i, n - j);
    WalkAdds(g, u, j, n - j);
  }

  /** No node on a returning walk is a dead end. */
  lemma {:induction false} NoDeadEnd(g: Graph, u: int, n: nat, i: nat)
    requires Returns(g, u, n) && i <= n
    ensures Next(g, Walk(g, u, i)) != []
    decreases n - i
  {
    if i < n {
      NoDeadEnd(g, u, n, i + 1);
      if Next(g, Walk(g, u, i)) == [] {
        assert Walk(g, u, i + 1) == Walk(g, u, i);
      }
    }
  }

  lemma RoundIsCycle(g: Graph, u: int, n: nat)
    requires Functional(g) && Returns(g, u, n) && forall k :: 0 < k < n ==> !Returns(g, u, k)
    ensures SimpleCycle(g, Round(g, u, n))
  {
    var c := Round(g, u, n);
    forall i, j | 0 <= i < j < |c| ensures c[i] != c[j] {
      NoRepeat(g, u, n, i, j);
    }
    forall i | 0 <= i < |c| ensures Next(g, c[i]) == [c[if i + 1 < |c| then i + 1 else 0]] {
      NoDeadEnd(g, u, n, i);
      assert Walk(g, u, i + 1) == Hop(g, c[i]);
      assert |Next(g, c[i])| == 1;
    }
  }

  /** A node returns to itself exactly when it lies on an arc within its component. */
  ghost predicate Cyclic(g: Graph, s: set<int>) {
    IsComponent(g, s) && (|s| > 1 || exists u :: u in s && Arc(g, u, u))
  }

  lemma AnotherMember(s: set<int>, u: int) returns (v: int)
    requires u in s && |s| > 1
    ensures v in s && v != u
  {
    assert |s - {u}| == |s| - 1;
    v := Member(s - {u});
  }

  lemma CyclicReturns(g: Graph, s: set<int>, u: int) returns (n: nat)
    requires Functional(g) && Cyclic(g, s) && u in s
    ensures Returns(g, u, n)
  {
    if |s| > 1 {
      var v := AnotherMember(s, u);
      assert Reach(g, u, v) && Reach(g, v, u);
      var there := ReachIsWalk(g, u, v);
      var back := ReachIsWalk(g, v, u);
      WalkAdds(g, u, there, back);
      n := there + back;
      DeadEndStays(g, u, there);
    } else {
      var w :| w in s && Arc(g, w, w);
      OnlyMember(s, u, w);
      n := 1;
      assert Walk(g, u, 0) == u;
      assert Walk(g, u, 1) == Hop(g, u);
    }
  }

  lemma OnlyMember(s: set<int>, u: int, w: int)
    requires |s| <= 1 && u in s && w in s
    ensures u == w
  {
    if u != w {
      assert {u, w} <= s;
      SubsetSize({u, w}, s);
    }
  }

  lemma {:induction false} DeadEndStays(g: Graph, u: int, n: nat)
    ensures Next(g, u) == [] ==> Walk(g, u, n) == u
  {
    if n > 0 { DeadEndStays(g, u, n - 1); }
  }

  /** The members of the component are the nodes of the round. */
  lemma RoundCovers(g: Graph, s: set<int>, u: int, n: nat, w: int)
    requires Functional(g) && IsComponent(g, s) && u in s && Returns(g, u, n)
    ensures w in s <==> w in Round(g, u, n)
  {
    var c := Round(g, u, n);
    if w in s {
      assert Reach(g, u, w);
      var k := ReachIsWalk(g, u, w);
      WalkModulo(g, u, n, k);
      assert c[k % n] == w;
    }
    if w in c {
      var i :| 0 <= i < n && c[i] == w;
      WalkReaches(g, u, i);
      WalkAdds(g, u, i, n - i);
      WalkReaches(g, w, n - i);
      assert Mutual(g, u, w);
    }
  }

  /** A component with more than one node or a self-edge is a simple cycle. */
  lemma CyclicIsSimple(g: Graph, s: set<int>) returns (c: seq<int>)
    requires Functional(g) && Cyclic(g, s)
    ensures SimpleCycle(g, c) && (set w | w in c) == s
  {
    var u := Member(s);
    var some := CyclicReturns(g, s, u);
    var n := LeastReturn(g, u, some);
    RoundIsCycle(g, u, n);
    c := Round(g, u, n);
    forall w ensures w in c <==> w in s {
      RoundCovers(g, s, u, n, w);
    }
  }

  // ---- where a walk ends ----

  /** The first |nodes| steps either stop at a dead end or come back to a node already passed. */
  lemma ChainEnds(g: Graph, nodes: set<int>, u: int) returns (n: nat, k: nat)
    requires Functional(g) && u in nodes
    requires forall a, b :: a in nodes && Arc(g, a, b) ==> b in nodes
    ensures n <= |nodes| && Walk(g, u, n) in nodes
    ensures Next(g, Walk(g, u, n)) == [] || Returns(g, Walk(g, u, n), k)
  {
    var passed: set<int> := {};
    n, k := 0, 0;
    while Next(g, Walk(g, u, n)) != [] && Walk(g, u, n) !in passed
      invariant passed <= nodes && |passed| == n && n <= |nodes|
      invariant Walk(g, u, n) in nodes
      invariant forall w :: w in passed ==> exists i {:trigger Walk(g, u, i)} :: 0 <= i < n && Walk(g, u, i) == w
      decreases |nodes| - n
    {
      var w := Walk(g, u, n);
      SubsetSize(passed + {w}, nodes);
      assert Arc(g, w, Hop(g, w));
      passed := passed + {w};
      n := n + 1;
    }
    if Next(g, Walk(g, u, n)) != [] {
      var w := Walk(g, u, n);
      var i :| 0 <= i < n && Walk(g, u, i) == w;
      WalkAdds(g, u, i, n - i);
      k := n - i;
    }
  }

  /** The nodes of `nodes` mutually reachable with v. */
  ghost function ComponentOf(g: Graph, nodes: set<int>, v: int): set<int> {
    set w | w in nodes && Mutual(g, v, w)
  }

  ghost predicate ClosedUnder(g: Graph, nodes: set<int>) {
    forall a, b :: a in nodes && Arc(g, a, b) ==> b in nodes
  }

  lemma ReachStays(g: Graph, nodes: set<int>, u: int, v: int)
    requires ClosedUnder(g, nodes) && u in nodes && Reach(g, u, v)
    ensures v in nodes
  {
    if v !in nodes {
      var x, y := Border(g, nodes, u, v);
    }
  }

  lemma ComponentOfIsComponent(g: Graph, nodes: set<int>, v: int)
    requires ClosedUnder(g, nodes) && v in nodes
    ensures v in ComponentOf(g, nodes, v) && IsComponent(g, ComponentOf(g, nodes, v))
  {
    var s := ComponentOf(g, nodes, v);
    ReachSelf(g, v);
    forall a, b | a in s && b in s ensures Reach(g, a, b) {
      ReachTrans(g, a, v, b);
    }
    forall a, b | a in s && Mutual(g, a, b) ensures b in s {
      ReachTrans(g, v, a, b);
      ReachTrans(g, b, a, v);
      ReachStays(g, nodes, v, b);
    }
  }

  /** A node that its own walk returns to lies in a cyclic component. */
  lemma ReturningIsCyclic(g: Graph, nodes: set<int>, v: int, k: nat)
    requires Functional(g) && ClosedUnder(g, nodes) && v in nodes && Returns(g, v, k)
    ensures v in ComponentOf(g, nodes, v) && Cyclic(g, ComponentOf(g, nodes, v))
  {
    ComponentOfIsComponent(g, nodes, v);
    var w := Hop(g, v);
    assert Arc(g, v, w);
    if w != v {
      ReachArc(g, v, w);
      WalkAdds(g, v, 1, k - 1);
      assert Walk(g, v, 0) == v;
      assert Walk(g, v, 1) == w;
      WalkReaches(g, w, k - 1);
      ReachStays(g, nodes, v, w);
      assert {v, w} <= ComponentOf(g, nodes, v);
      SubsetSize({v, w}, ComponentOf(g, nodes, v));
    }
  }

  /** From a cyclic component the walk never reaches a dead end. */
  lemma CyclicNeverEnds(g: Graph, s: set<int>, u: int, n: nat)
    requires Functional(g) && Cyclic(g, s) && u in s
    ensures Next(g, Walk(g, u, n)) != []
  {
    var k := CyclicReturns(g, s, u);
    WalkModulo(g, u, k, n);
    NoDeadEnd(g, u, k, n % k);
  }
}
