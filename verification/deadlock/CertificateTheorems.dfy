/** What a deadlock certificate says about the tiles that wait. */
module CertificateTheorems {
  import opened Options
  import opened SortedSets
  import opened Reachability
  import opened WaitEdges
  import opened FunctionalGraphs
  import opened ComponentListing
  import opened DeadlockCertificate

  function CycleNodes(cycles: seq<seq<int>>): set<int> {
    set c, u | c in cycles && u in c :: u
  }

  /** The wait edges between cycle nodes. */
  function CycleEdges(edges: seq<Edge>, nodes: set<int>): seq<Edge> {
    if edges == [] then []
    else
      var last := edges[|edges| - 1];
      CycleEdges(edges[..|edges| - 1], nodes) + if last.destination in nodes && last.source in nodes then [last] else []
  }

  lemma {:induction false} CycleEdgesExact(edges: seq<Edge>, nodes: set<int>, e: Edge)
    ensures e in CycleEdges(edges, nodes) <==> e in edges && e.destination in nodes && e.source in nodes
  {
    if edges != [] {
      var init := edges[..|edges| - 1];
      CycleEdgesExact(init, nodes, e);
      assert edges == init + [edges[|edges| - 1]];
    }
  }

  lemma {:induction false} CycleEdgesOrdered(edges: seq<Edge>, nodes: set<int>)
    requires OnePerTile(edges)
    ensures OnePerTile(CycleEdges(edges, nodes))
  {
    if edges != [] {
      var n := |edges| - 1;
      var init := edges[..n];
      CycleEdgesOrdered(init, nodes);
      var r := CycleEdges(init, nodes);
      forall i | 0 <= i < |r| ensures r[i].destination < edges[n].destination {
        CycleEdgesExact(init, nodes, r[i]);
        assert r[i] in r;
        var j :| 0 <= j < n && edges[j] == r[i];
      }
    }
  }

  lemma FunctionalWaits(edges: seq<Edge>)
    requires OnePerTile(edges)
    ensures Functional(GraphOf(edges))
  {
    OutDegree(edges);
  }

  /** Every reported component is a simple cycle of tiles waiting for each other. */
  lemma CyclesAreSimple(edges: seq<Edge>, cycles: seq<seq<int>>, c: seq<int>) returns (round: seq<int>)
    requires OnePerTile(edges) && Reports(GraphOf(edges), cycles) && c in cycles
    ensures SimpleCycle(GraphOf(edges), round) && Elements(round) == Elements(c)
  {
    FunctionalWaits(edges);
    round := CyclicIsSimple(GraphOf(edges), Elements(c));
  }

  /** The only successor of a cycle node is in the same cycle. */
  lemma ArcInCycle(g: Graph, s: set<int>, u: int, v: int)
    requires Functional(g) && Cyclic(g, s) && Arc(g, u, v) && u in s
    ensures v in s
  {
    var n := CyclicReturns(g, s, u);
    WalkAdds(g, u, 1, n - 1);
    assert Walk(g, u, 0) == u;
    assert Walk(g, u, 1) == v;
    WalkReaches(g, v, n - 1);
    ReachArc(g, u, v);
    assert Mutual(g, u, v);
  }

  lemma CycleNode(cycles: seq<seq<int>>, u: int) returns (c: seq<int>)
    requires u in CycleNodes(cycles)
    ensures c in cycles && u in Elements(c)
  {
    c :| c in cycles && u in c;
  }

  /** Each cycle node is the destination of a cycle edge. */
  lemma CycleNodeHasEdge(edges: seq<Edge>, cycles: seq<seq<int>>, u: int)
    requires OnePerTile(edges) && Reports(GraphOf(edges), cycles) && u in CycleNodes(cycles)
    ensures exists e :: e in CycleEdges(edges, CycleNodes(cycles)) && e.destination == u
  {
    var g := GraphOf(edges);
    FunctionalWaits(edges);
    var c := CycleNode(cycles, u);
    var v := CyclicHasArc(g, Elements(c), u);
    ArcInCycle(g, Elements(c), u, v);
    ArcsAreEdges(edges, u, v);
    var i :| 0 <= i < |edges| && edges[i].destination == u && edges[i].source == v;
    CycleEdgesExact(edges, CycleNodes(cycles), edges[i]);
    assert edges[i] in edges;
  }

  lemma LastDestination(edges: seq<Edge>)
    requires OnePerTile(edges) && edges != []
    ensures var n := |edges| - 1;
            OnePerTile(edges[..n]) && edges[n].destination !in Destinations(edges[..n])
            && Destinations(edges) == Destinations(edges[..n]) + {edges[n].destination}
  {
    var n := |edges| - 1;
    assert edges == edges[..n] + [edges[n]];
    assert Destinations(edges) == Destinations(edges[..n]) + {edges[n].destination};
    forall e | e in edges[..n] ensures e.destination != edges[n].destination {
      var i :| 0 <= i < n && edges[i] == e;
    }
  }

  lemma {:induction false} OneForEach(edges: seq<Edge>)
    requires OnePerTile(edges)
    ensures |edges| == |Destinations(edges)|
  {
    if edges == [] {
      assert Destinations(edges) == {};
    } else {
      LastDestination(edges);
      OneForEach(edges[..|edges| - 1]);
    }
  }

  /** There is exactly one cycle edge for each cycle node, and it stays within its cycle. */
  lemma OneEdgePerCycleNode(edges: seq<Edge>, cycles: seq<seq<int>>)
    requires OnePerTile(edges) && Reports(GraphOf(edges), cycles)
    ensures var r := CycleEdges(edges, CycleNodes(cycles));
            && OnePerTile(r) && Destinations(r) == CycleNodes(cycles) && |r| == |CycleNodes(cycles)|
            && forall e, c :: e in r && c in cycles && e.destination in c ==> e.source in c
  {
    var nodes := CycleNodes(cycles);
    var r := CycleEdges(edges, nodes);
    CycleEdgesOrdered(edges, nodes);
    OneForEach(r);
    forall u ensures u in Destinations(r) <==> u in nodes {
      if u in nodes {
        CycleNodeHasEdge(edges, cycles, u);
      }
      if u in Destinations(r) {
        var e :| e in r && e.destination == u;
        CycleEdgesExact(edges, nodes, e);
      }
    }
    forall e, c | e in r && c in cycles && e.destination in c ensures e.source in c {
      CycleEdgesExact(edges, nodes, e);
      EdgeIsArc(edges, e);
      FunctionalWaits(edges);
      ArcInCycle(GraphOf(edges), Elements(c), e.destination, e.source);
      assert e.source in Elements(c);
    }
  }

  lemma EdgeIsArc(edges: seq<Edge>, e: Edge)
    requires e in edges
    ensures Arc(GraphOf(edges), e.destination, e.source)
  {
    var i :| 0 <= i < |edges| && edges[i] == e;
    ArcsAreEdges(edges, e.destination, e.source);
  }

  lemma NoWaitEdge(edges: seq<Edge>, u: int)
    ensures Next(GraphOf(edges), u) == [] <==> u !in Destinations(edges)
  {
    if u in Destinations(edges) {
      var e :| e in edges && e.destination == u;
      EdgeIsArc(edges, e);
    }
  }

  /** The tile reached from u after following n wait edges has none itself. */
  ghost predicate Stops(edges: seq<Edge>, u: int, n: nat) {
    Walk(GraphOf(edges), u, n) !in Destinations(edges)
  }

  /** The tile reached from u after following n wait edges is a node of a reported cycle. */
  ghost predicate Deadlocks(edges: seq<Edge>, cycles: seq<seq<int>>, u: int, n: nat) {
    Walk(GraphOf(edges), u, n) in CycleNodes(cycles)
  }

  lemma EndExists(edges: seq<Edge>, cycles: seq<seq<int>>, u: int) returns (n: nat)
    requires OnePerTile(edges) && Reports(GraphOf(edges), cycles) && u in Destinations(edges)
    ensures n <= |Tiles(edges)| && (Stops(edges, u, n) || Deadlocks(edges, cycles, u, n))
  {
    var g := GraphOf(edges);
    FunctionalWaits(edges);
    TilesClosed(edges);
    var k: nat;
    n, k := ChainEnds(g, Tiles(edges), u);
    var v := Walk(g, u, n);
    NoWaitEdge(edges, v);
    if v in Destinations(edges) {
      ReturningIsCyclic(g, Tiles(edges), v, k);
      var s := ComponentOf(g, Tiles(edges), v);
      var c :| c in cycles && Elements(c) == s;
      assert v in Elements(c);
    }
  }

  lemma NotBoth(edges: seq<Edge>, cycles: seq<seq<int>>, u: int, m: nat, n: nat)
    requires OnePerTile(edges) && Reports(GraphOf(edges), cycles)
    requires Stops(edges, u, m)
    ensures !Deadlocks(edges, cycles, u, n)
  {
    var g := GraphOf(edges);
    FunctionalWaits(edges);
    var stop, node := Walk(g, u, m), Walk(g, u, n);
    NoWaitEdge(edges, stop);
    DeadEndStays(g, stop, n);
    WalkAdds(g, u, m, n);
    WalkAdds(g, u, n, m);
    if node in CycleNodes(cycles) {
      var c := CycleNode(cycles, node);
      assert n + m == m + n;
      CyclicNeverEnds(g, Elements(c), node, m);
    }
  }

  /** Following wait edges from a waiting tile leads, within as many steps as there are tiles, either
      into a reported cycle or to a tile that does not wait, and never to both. */
  lemma EveryWaiterEnds(edges: seq<Edge>, cycles: seq<seq<int>>, u: int)
    requires OnePerTile(edges) && Reports(GraphOf(edges), cycles) && u in Destinations(edges)
    ensures exists n :: 0 <= n <= |Tiles(edges)| && (Stops(edges, u, n) || Deadlocks(edges, cycles, u, n))
    ensures (exists m :: Stops(edges, u, m)) <==> !(exists n :: Deadlocks(edges, cycles, u, n))
  {
    var n := EndExists(edges, cycles, u);
    if m :| Stops(edges, u, m) {
      forall k ensures !Deadlocks(edges, cycles, u, k) {
        NotBoth(edges, cycles, u, m, k);
      }
    }
  }
}
