/** The deadlock certificate: wait edges, strongly connected components, cycles and cycle edges. */
module DeadlockCertificate {
  import opened SortedSets
  import opened Reachability
  import opened TarjanState
  import opened Tarjan
  import opened WaitEdges
  import opened FunctionalGraphs
  import opened ComponentListing

  // ---- wait edges ----

  /** Reads the wait edges in tile order; fails when the route of a waiting tile cannot be loaded. */
  method BuildWaitEdges(snapshots: map<int, Snapshot>, load: Loader) returns (ok: bool, edges: seq<Edge>)
    ensures ok <==> forall t :: t in snapshots && Waits(snapshots[t]) ==> load(t, snapshots[t].waitRoute).Some?
    ensures OnePerTile(edges)
    ensures ok ==> forall e :: e in edges <==> IsWaitEdge(snapshots, load, e)
  {
    edges := [];
    var tiles := Sorted(snapshots.Keys);
    for i := 0 to |tiles|
      invariant OnePerTile(edges)
      invariant forall e :: e in edges <==> IsWaitEdge(snapshots, load, e) && e.destination in tiles[..i]
      invariant forall t :: t in tiles[..i] && Waits(snapshots[t]) ==> load(t, snapshots[t].waitRoute).Some?
    {
      var tile := tiles[i];
      assert tile in Elements(tiles);
      assert forall t :: t in tiles[..i + 1] <==> t in tiles[..i] || t == tile;
      var snapshot := snapshots[tile];
      if Waits(snapshot) {
        var loaded := load(tile, snapshot.waitRoute);
        if loaded.None? {
          return false, edges;
        }
        Ascending(tiles, i, edges);
        forall e ensures IsWaitEdge(snapshots, load, e) && e.destination == tile <==> e == EdgeOf(tile, snapshot, loaded.value) {
          WaitEdgeIs(snapshots, load, e);
        }
        edges := edges + [EdgeOf(tile, snapshot, loaded.value)];
      }
    }
    assert forall t :: t in snapshots ==> t in Elements(tiles);
    ok := true;
  }

  lemma Ascending(tiles: seq<int>, i: nat, edges: seq<Edge>)
    requires Increasing(tiles) && i < |tiles| && forall e :: e in edges ==> e.destination in tiles[..i]
    ensures forall k :: 0 <= k < |edges| ==> edges[k].destination < tiles[i]
  {
    forall k | 0 <= k < |edges| ensures edges[k].destination < tiles[i] {
      assert edges[k] in edges;
    }
  }

  method BuildAdjacency(edges: seq<Edge>) returns (adjacency: Graph, nodes: set<int>)
    ensures adjacency == GraphOf(edges) && nodes == Tiles(edges)
  {
    adjacency, nodes := map[], {};
    for i := 0 to |edges|
      invariant adjacency == GraphOf(edges[..i]) && nodes == Tiles(edges[..i])
    {
      var edge := edges[i];
      OneMore(edges, i);
      MoreTiles(edges, i);
      adjacency := adjacency[edge.destination := Next(adjacency, edge.destination) + [edge.source]];
      nodes := nodes + {edge.destination} + {edge.source};
    }
    assert edges[..|edges|] == edges;
  }

  lemma MoreEdges(edges: seq<Edge>, i: nat)
    requires i < |edges|
    ensures edges[..i + 1][..i] == edges[..i] && edges[..i + 1][i] == edges[i]
    ensures forall e :: e in edges[..i + 1] <==> e in edges[..i] || e == edges[i]
  {
    assert edges[..i + 1] == edges[..i] + [edges[i]];
  }

  lemma MoreTiles(edges: seq<Edge>, i: nat)
    requires i < |edges|
    ensures Destinations(edges[..i + 1]) == Destinations(edges[..i]) + {edges[i].destination}
    ensures Tiles(edges[..i + 1]) == Tiles(edges[..i]) + {edges[i].destination} + {edges[i].source}
  {
    MoreEdges(edges, i);
  }

  lemma MoreSources(edges: seq<Edge>, i: nat, u: int)
    requires i < |edges|
    ensures Sources(edges[..i + 1], u) == Sources(edges[..i], u) + if edges[i].destination == u then [edges[i].source] else []
  {
    MoreEdges(edges, i);
  }

  lemma NextSources(edges: seq<Edge>, u: int)
    ensures Next(GraphOf(edges), u) == Sources(edges, u)
  {
    if u !in Destinations(edges) {
      NoSources(edges, u);
    }
  }

  lemma OneMore(edges: seq<Edge>, i: nat)
    requires i < |edges|
    ensures GraphOf(edges[..i + 1])
         == GraphOf(edges[..i])[edges[i].destination := Next(GraphOf(edges[..i]), edges[i].destination) + [edges[i].source]]
  {
    var d := edges[i].destination;
    var before, after := GraphOf(edges[..i]), GraphOf(edges[..i + 1]);
    MoreTiles(edges, i);
    NextSources(edges[..i], d);
    assert after.Keys == before.Keys + {d};
    forall u | u in after.Keys
      ensures after[u] == before[d := Next(before, d) + [edges[i].source]][u]
    {
      MoreSources(edges, i, u);
    }
  }

  // ---- the components ----

  /** With no visit under way the stack is empty and every discovered node has its component. */
  lemma NothingPending(g: Graph, e: Search)
    requires Inv(g, e, {})
    ensures e.onStack == {}
    ensures forall u :: InComponent(e.components, u) <==> u in e.indices
  {
    forall z ensures z !in e.onStack {
      NoAnchor(g, e, z);
    }
  }

  lemma NoAnchor(g: Graph, e: Search, z: int)
    ensures !HasAnchor(g, e, {}, z)
  {
  }

  /** Visits x unless it has been discovered. */
  method VisitNew(finder: Finder, x: int)
    requires finder.Running({}) && x in finder.nodes && AllIncreasing(finder.components)
    modifies finder
    ensures finder.Running({}) && x in finder.indices && AllIncreasing(finder.components)
    ensures forall u :: u in old(finder.indices) ==> u in finder.indices
  {
    ghost var components := finder.components;
    if x !in finder.indices {
      finder.Visit(x, {});
      forall k | 0 <= k < |finder.components| ensures Increasing(finder.components[k]) {
        if k < |components| { assert finder.components[k] == components[k]; }
      }
    }
  }

  predicate AllIncreasing(components: seq<seq<int>>) {
    forall k :: 0 <= k < |components| ==> Increasing(components[k])
  }

  method SearchAll(adjacency: Graph, nodes: set<int>) returns (components: seq<seq<int>>)
    requires ClosedUnder(adjacency, nodes)
    ensures Found(adjacency, components)
    ensures AllIncreasing(components)
    ensures forall u :: InComponent(components, u) <==> u in nodes
  {
    var finder := new Finder(adjacency, nodes);
    var order := Sorted(nodes);
    for i := 0 to |order|
      invariant finder.adjacency == adjacency && finder.nodes == nodes && finder.Running({})
      invariant forall j :: 0 <= j < i ==> order[j] in finder.indices
      invariant AllIncreasing(finder.components)
    {
      assert order[i] in Elements(order);
      VisitNew(finder, order[i]);
    }
    NothingPending(adjacency, finder.Env());
    forall u ensures u in finder.indices <==> u in nodes {
      if u in nodes { assert u in Elements(order); }
    }
    components := finder.components;
  }

  /** A component is reported when it has two nodes or one with an edge to itself. */
  lemma KeptIsCyclic(edges: seq<Edge>, c: seq<int>, selfEdges: set<int>)
    requires c != [] && Increasing(c) && IsComponent(GraphOf(edges), Elements(c))
    requires selfEdges == set e | e in edges && e.destination == e.source :: e.destination
    ensures (|c| > 1 || c[0] in selfEdges) <==> Cyclic(GraphOf(edges), Elements(c))
  {
    var g := GraphOf(edges);
    IncreasingSize(c);
    ArcsAreEdges(edges, c[0], c[0]);
    assert c[0] in Elements(c);
    if |c| == 1 {
      assert Elements(c) == {c[0]};
      if i :| 0 <= i < |edges| && edges[i].destination == c[0] && edges[i].source == c[0] {
        assert edges[i] in edges;
      }
      if c[0] in selfEdges {
        var e :| e in edges && e.destination == e.source && e.destination == c[0];
        var i :| 0 <= i < |edges| && edges[i] == e;
      }
    }
  }

  lemma TilesClosed(edges: seq<Edge>)
    ensures ClosedUnder(GraphOf(edges), Tiles(edges))
  {
    forall a, b | Arc(GraphOf(edges), a, b) ensures b in Tiles(edges) {
      ArcsAreEdges(edges, a, b);
      var i :| 0 <= i < |edges| && edges[i].destination == a && edges[i].source == b;
      assert edges[i] in edges;
    }
  }

  /** A node of a cyclic component has an outgoing arc, so it is a waiting tile. */
  lemma CyclicHasArc(g: Graph, s: set<int>, u: int) returns (v: int)
    requires Cyclic(g, s) && u in s
    ensures Arc(g, u, v)
  {
    if |s| > 1 {
      var w := AnotherMember(s, u);
      assert Reach(g, u, w);
      var x, y := Border(g, {u}, u, w);
      v := y;
    } else {
      v :| v in s && Arc(g, v, v);
      OnlyMember(s, u, v);
    }
  }

  /** The reported lists are exactly the cyclic components. */
  ghost predicate Reports(g: Graph, cycles: seq<seq<int>>) {
    && (forall c :: c in cycles ==> Increasing(c) && Cyclic(g, Elements(c)))
    && (forall s :: Cyclic(g, s) ==> exists c :: c in cycles && Elements(c) == s)
  }

  /** Which of the components found are cyclic. */
  ghost predicate Selects(g: Graph, components: seq<seq<int>>, n: nat, cycles: seq<seq<int>>)
    requires n <= |components|
  {
    forall c :: c in cycles <==> exists k :: 0 <= k < n && components[k] == c && Cyclic(g, Elements(c))
  }

  lemma SelectionReports(edges: seq<Edge>, components: seq<seq<int>>, cycles: seq<seq<int>>)
    requires var g := GraphOf(edges); Found(g, components) && Selects(g, components, |components|, cycles)
    requires AllIncreasing(components)
    requires forall u :: InComponent(components, u) <==> u in Tiles(edges)
    ensures Reports(GraphOf(edges), cycles)
  {
    var g := GraphOf(edges);
    forall s | Cyclic(g, s) ensures exists c :: c in cycles && Elements(c) == s {
      var u := Member(s);
      var v := CyclicHasArc(g, s, u);
      assert u in Destinations(edges);
      assert InComponent(components, u);
      var k :| 0 <= k < |components| && u in components[k];
      assert u in Elements(components[k]);
      ComponentsEqualOrDisjoint(g, s, Elements(components[k]), u);
      assert components[k] in cycles;
    }
  }

  /** The reported components, in the order of the listing. */
  method StronglyConnectedComponents(edges: seq<Edge>) returns (cycles: seq<seq<int>>)
    ensures Reports(GraphOf(edges), cycles)
    ensures Listed(cycles) && Disjoint(cycles)
  {
    var adjacency, nodes := BuildAdjacency(edges);
    TilesClosed(edges);
    var components := SearchAll(adjacency, nodes);
    var selfEdges := set e | e in edges && e.destination == e.source :: e.destination;
    cycles := [];
    for k := 0 to |components|
      invariant Listed(cycles) && Disjoint(cycles)
      invariant Selects(adjacency, components, k, cycles)
    {
      var c := components[k];
      NonEmpty(adjacency, components, k);
      KeptIsCyclic(edges, c, selfEdges);
      if |c| > 1 || c[0] in selfEdges {
        SelectedApart(adjacency, components, k, cycles);
        cycles := Place(cycles, c);
      }
    }
    SelectionReports(edges, components, cycles);
  }

  lemma NonEmpty(g: Graph, components: seq<seq<int>>, k: nat)
    requires Found(g, components) && k < |components|
    ensures components[k] != []
  {
    assert IsComponent(g, Elements(components[k]));
    var u := Member(Elements(components[k]));
  }

  lemma SelectedApart(g: Graph, components: seq<seq<int>>, k: nat, cycles: seq<seq<int>>)
    requires Found(g, components) && k < |components| && Selects(g, components, k, cycles)
    ensures Apart(cycles, components[k])
  {
    NonEmpty(g, components, k);
    forall i | 0 <= i < |cycles| ensures cycles[i] != [] && Elements(components[k]) !! Elements(cycles[i]) {
      assert cycles[i] in cycles;
      var j :| 0 <= j < k && components[j] == cycles[i];
      NonEmpty(g, components, j);
    }
  }
}
