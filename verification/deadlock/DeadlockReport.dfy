/** What the certificate says about the snapshots and routes that it was built from. */
module DeadlockReport {
  import opened Options
  import opened SortedSets
  import opened Reachability
  import opened WaitEdges
  import opened FunctionalGraphs
  import opened ComponentListing
  import opened DeadlockCertificate
  import opened CertificateTheorems

  /** The edges are those of all waiting tiles, and the route of each of these has been loaded. */
  ghost predicate WaitsOf(snapshots: map<int, Snapshot>, load: Loader, edges: seq<Edge>) {
    && OnePerTile(edges) && (forall e :: e in edges <==> IsWaitEdge(snapshots, load, e))
    && forall t :: t in snapshots && Waits(snapshots[t]) ==> load(t, snapshots[t].waitRoute).Some?
  }

  /** The only arc of a tile leads to the tile it waits for. */
  lemma ArcIsUpstream(snapshots: map<int, Snapshot>, load: Loader, edges: seq<Edge>, u: int)
    requires WaitsOf(snapshots, load, edges)
    ensures match Upstream(snapshots, load, u)
            case None => Next(GraphOf(edges), u) == []
            case Some(v) => Next(GraphOf(edges), u) == [v]
  {
    var g := GraphOf(edges);
    FunctionalWaits(edges);
    assert |Next(g, u)| <= 1;
    if Upstream(snapshots, load, u).Some? {
      var e := EdgeOf(u, snapshots[u], load(u, snapshots[u].waitRoute).value);
      WaitEdgeIs(snapshots, load, e);
      EdgeIsArc(edges, e);
    } else {
      NoWaitEdge(edges, u);
      forall e | e in edges ensures e.destination != u {
        assert IsWaitEdge(snapshots, load, e);
      }
    }
  }

  /** Following the routes is walking along the arcs, until one leads to a tile that does not wait. */
  lemma {:induction false} FollowIsWalk(snapshots: map<int, Snapshot>, load: Loader, edges: seq<Edge>, u: int, n: nat)
    requires WaitsOf(snapshots, load, edges)
    ensures match Follow(snapshots, load, u, n)
            case None => Next(GraphOf(edges), Walk(GraphOf(edges), u, n)) == []
            case Some(v) => Walk(GraphOf(edges), u, n) == v
  {
    if n > 0 {
      FollowIsWalk(snapshots, load, edges, u, n - 1);
      var before := Follow(snapshots, load, u, n - 1);
      if before.Some? { ArcIsUpstream(snapshots, load, edges, before.value); }
    }
  }

  /** From a tile of a reported cycle the routes lead on for ever. */
  lemma CycleFollows(snapshots: map<int, Snapshot>, load: Loader, edges: seq<Edge>, s: set<int>, u: int, n: nat)
    requires WaitsOf(snapshots, load, edges) && Cyclic(GraphOf(edges), s) && u in s
    ensures Follow(snapshots, load, u, n) == Some(Walk(GraphOf(edges), u, n))
  {
    FunctionalWaits(edges);
    FollowIsWalk(snapshots, load, edges, u, n);
    CyclicNeverEnds(GraphOf(edges), s, u, n);
  }

  /** Following the routes from u leads to v. */
  ghost predicate LeadsTo(snapshots: map<int, Snapshot>, load: Loader, u: int, v: int) {
    exists n: nat :: Follow(snapshots, load, u, n) == Some(v)
  }

  /** Following the routes from the tile comes back to it. */
  ghost predicate ComesBack(snapshots: map<int, Snapshot>, load: Loader, u: int) {
    exists n: nat :: n > 0 && Follow(snapshots, load, u, n) == Some(u)
  }

  /** A tile is in a reported cycle exactly when following the routes comes back to it. */
  lemma DeadlockedTiles(snapshots: map<int, Snapshot>, load: Loader, edges: seq<Edge>, cycles: seq<seq<int>>, u: int)
    requires WaitsOf(snapshots, load, edges) && Reports(GraphOf(edges), cycles)
    ensures u in CycleNodes(cycles) <==> ComesBack(snapshots, load, u)
  {
    var g := GraphOf(edges);
    FunctionalWaits(edges);
    if u in CycleNodes(cycles) {
      var c := CycleNode(cycles, u);
      var n := CyclicReturns(g, Elements(c), u);
      CycleFollows(snapshots, load, edges, Elements(c), u, n);
    }
    if n: nat :| n > 0 && Follow(snapshots, load, u, n) == Some(u) {
      FirstStep(snapshots, load, u, n);
      ArcIsUpstream(snapshots, load, edges, u);
      FollowIsWalk(snapshots, load, edges, u, n);
      TilesClosed(edges);
      NoWaitEdge(edges, u);
      ReturningIsCyclic(g, Tiles(edges), u, n);
      var s := ComponentOf(g, Tiles(edges), u);
      var c :| c in cycles && Elements(c) == s;
      assert u in Elements(c);
    }
  }

  lemma {:induction false} FirstStep(snapshots: map<int, Snapshot>, load: Loader, u: int, n: nat)
    requires n > 0 && Follow(snapshots, load, u, n).Some?
    ensures Upstream(snapshots, load, u).Some?
  {
    if n > 1 {
      FirstStep(snapshots, load, u, n - 1);
    } else {
      assert Follow(snapshots, load, u, 0) == Some(u);
    }
  }

  /** The tiles of a reported cycle are those that the routes lead to from any of them. */
  lemma CycleIsLoop(snapshots: map<int, Snapshot>, load: Loader, edges: seq<Edge>, cycles: seq<seq<int>>, c: seq<int>, u: int, v: int)
    requires WaitsOf(snapshots, load, edges) && Reports(GraphOf(edges), cycles) && c in cycles && u in c
    ensures v in c <==> LeadsTo(snapshots, load, u, v)
  {
    var g, s := GraphOf(edges), Elements(c);
    FunctionalWaits(edges);
    if v in c {
      assert Reach(g, u, v);
      var n := ReachIsWalk(g, u, v);
      CycleFollows(snapshots, load, edges, s, u, n);
      assert Follow(snapshots, load, u, n) == Some(v);
    }
    if LeadsTo(snapshots, load, u, v) {
      var n: nat :| Follow(snapshots, load, u, n) == Some(v);
      CycleFollows(snapshots, load, edges, s, u, n);
      StaysInCycle(g, s, u, n);
    }
  }

  lemma {:induction false} StaysInCycle(g: Graph, s: set<int>, u: int, n: nat)
    requires Functional(g) && Cyclic(g, s) && u in s
    ensures Walk(g, u, n) in s
  {
    if n > 0 {
      StaysInCycle(g, s, u, n - 1);
      CyclicNeverEnds(g, s, u, n - 1);
      ArcInCycle(g, s, Walk(g, u, n - 1), Walk(g, u, n));
    }
  }

  /** Following the routes n times leads into a reported cycle. */
  ghost predicate LeadsIn(snapshots: map<int, Snapshot>, load: Loader, cycles: seq<seq<int>>, u: int, n: nat) {
    var t := Follow(snapshots, load, u, n);
    t.Some? && t.value in CycleNodes(cycles)
  }

  /** Following the routes ends in a reported cycle. */
  ghost predicate RunsIn(snapshots: map<int, Snapshot>, load: Loader, cycles: seq<seq<int>>, u: int) {
    exists n: nat :: LeadsIn(snapshots, load, cycles, u, n)
  }

  /** ... or at a tile that does not wait. */
  ghost predicate RunsOut(snapshots: map<int, Snapshot>, load: Loader, u: int) {
    exists n: nat :: Follow(snapshots, load, u, n) == None
  }

  lemma EndsOutside(snapshots: map<int, Snapshot>, load: Loader, edges: seq<Edge>, cycles: seq<seq<int>>, u: int, m: nat, n: nat)
    requires WaitsOf(snapshots, load, edges) && Reports(GraphOf(edges), cycles) && Follow(snapshots, load, u, m).None?
    ensures !LeadsIn(snapshots, load, cycles, u, n)
  {
    FollowIsWalk(snapshots, load, edges, u, m);
    FollowIsWalk(snapshots, load, edges, u, n);
    NoWaitEdge(edges, Walk(GraphOf(edges), u, m));
    NotBoth(edges, cycles, u, m, n);
  }

  lemma EndsInside(snapshots: map<int, Snapshot>, load: Loader, edges: seq<Edge>, cycles: seq<seq<int>>, u: int) returns (n: nat)
    requires WaitsOf(snapshots, load, edges) && Reports(GraphOf(edges), cycles)
    requires forall m: nat :: Follow(snapshots, load, u, m).Some?
    ensures LeadsIn(snapshots, load, cycles, u, n)
  {
    assert Follow(snapshots, load, u, 1).Some? && Follow(snapshots, load, u, 0) == Some(u);
    ArcIsUpstream(snapshots, load, edges, u);
    NoWaitEdge(edges, u);
    n := EndExists(edges, cycles, u);
    assert Follow(snapshots, load, u, n + 1).Some? && Follow(snapshots, load, u, n).Some?;
    FollowIsWalk(snapshots, load, edges, u, n);
    var v := Follow(snapshots, load, u, n).value;
    ArcIsUpstream(snapshots, load, edges, v);
    NoWaitEdge(edges, v);
  }

  /** The routes from a tile lead either into a reported cycle or to a tile that does not wait, never to
      both. */
  lemma WaitersEnd(snapshots: map<int, Snapshot>, load: Loader, edges: seq<Edge>, cycles: seq<seq<int>>, u: int)
    requires WaitsOf(snapshots, load, edges) && Reports(GraphOf(edges), cycles)
    ensures RunsOut(snapshots, load, u) <==> !RunsIn(snapshots, load, cycles, u)
  {
    if RunsOut(snapshots, load, u) {
      var m: nat :| Follow(snapshots, load, u, m) == None;
      forall n: nat ensures !LeadsIn(snapshots, load, cycles, u, n) {
        EndsOutside(snapshots, load, edges, cycles, u, m, n);
      }
    } else {
      forall m: nat ensures Follow(snapshots, load, u, m).Some? {
        assert Follow(snapshots, load, u, m) != None;
      }
      var n := EndsInside(snapshots, load, edges, cycles, u);
    }
  }

  /** What the cycles of a certificate tell: which tiles are in one, who else is in the same one, and where
      every waiting tile ends. */
  ghost predicate Tells(snapshots: map<int, Snapshot>, load: Loader, cycles: seq<seq<int>>) {
    && (forall u :: u in CycleNodes(cycles) <==> ComesBack(snapshots, load, u))
    && (forall c, u, v :: c in cycles && u in c ==> (v in c <==> LeadsTo(snapshots, load, u, v)))
    && forall u :: RunsOut(snapshots, load, u) <==> !RunsIn(snapshots, load, cycles, u)
  }

  lemma CyclesTell(snapshots: map<int, Snapshot>, load: Loader, edges: seq<Edge>, cycles: seq<seq<int>>)
    requires WaitsOf(snapshots, load, edges) && Reports(GraphOf(edges), cycles)
    ensures Tells(snapshots, load, cycles)
  {
    forall u ensures u in CycleNodes(cycles) <==> ComesBack(snapshots, load, u) {
      DeadlockedTiles(snapshots, load, edges, cycles, u);
    }
    forall c, u, v | c in cycles && u in c ensures v in c <==> LeadsTo(snapshots, load, u, v) {
      CycleIsLoop(snapshots, load, edges, cycles, c, u, v);
    }
    forall u ensures RunsOut(snapshots, load, u) <==> !RunsIn(snapshots, load, cycles, u) {
      WaitersEnd(snapshots, load, edges, cycles, u);
    }
  }

  /** A deadlock certificate. */
  datatype Certificate = Certificate(waits: seq<Edge>, cycles: seq<seq<int>>, cycleEdges: seq<Edge>)

  /** Edges by tile; the tiles of a cycle ascending; longer cycles first, equally long ones by their lowest
      tile. */
  ghost predicate Ordered(c: Certificate) {
    && (forall i, j :: 0 <= i < j < |c.waits| ==> c.waits[i].destination < c.waits[j].destination)
    && (forall i, j :: 0 <= i < j < |c.cycleEdges| ==> c.cycleEdges[i].destination < c.cycleEdges[j].destination)
    && (forall d, i, j :: d in c.cycles && 0 <= i < j < |d| ==> d[i] < d[j])
    && forall i, j :: 0 <= i < j < |c.cycles| ==> Earlier(c.cycles[i], c.cycles[j])
  }

  predicate Earlier(a: seq<int>, b: seq<int>) {
    a != [] && b != [] && (|a| > |b| || (|a| == |b| && a[0] < b[0]))
  }

  lemma ReportedNonEmpty(g: Graph, cycles: seq<seq<int>>, i: nat)
    requires Reports(g, cycles) && i < |cycles|
    ensures cycles[i] != []
  {
    assert cycles[i] in cycles;
    var u := Member(Elements(cycles[i]));
  }

  lemma ListedIsEarlier(g: Graph, cycles: seq<seq<int>>, i: nat, j: nat)
    requires Reports(g, cycles) && Listed(cycles) && Disjoint(cycles) && i < j < |cycles|
    ensures Earlier(cycles[i], cycles[j])
  {
    ReportedNonEmpty(g, cycles, i);
    ReportedNonEmpty(g, cycles, j);
    assert Precedes(cycles[i], cycles[j]);
    assert cycles[i][0] in Elements(cycles[i]) && cycles[j][0] in Elements(cycles[j]);
  }

  lemma CertificateOrdered(c: Certificate)
    requires OnePerTile(c.waits) && OnePerTile(c.cycleEdges)
    requires Reports(GraphOf(c.waits), c.cycles) && Listed(c.cycles) && Disjoint(c.cycles)
    ensures Ordered(c)
  {
    forall i, j | 0 <= i < j < |c.cycles| ensures Earlier(c.cycles[i], c.cycles[j]) {
      ListedIsEarlier(GraphOf(c.waits), c.cycles, i, j);
    }
  }

  /** Fails when a route of a waiting tile cannot be loaded. */
  method BuildCertificate(snapshots: map<int, Snapshot>, load: Loader) returns (r: Option<Certificate>)
    ensures r.Some? <==> forall t :: t in snapshots && Waits(snapshots[t]) ==> load(t, snapshots[t].waitRoute).Some?
    ensures r.Some? ==> forall e :: e in r.value.waits <==> IsWaitEdge(snapshots, load, e)
    ensures r.Some? ==> Tells(snapshots, load, r.value.cycles) && Ordered(r.value)
    ensures r.Some? ==>
              var c := r.value;
              && OnePerTile(c.waits) && Reports(GraphOf(c.waits), c.cycles) && Listed(c.cycles) && Disjoint(c.cycles)
              && OnePerTile(c.cycleEdges) && Destinations(c.cycleEdges) == CycleNodes(c.cycles)
              && forall e :: e in c.cycleEdges ==> e in c.waits && e.source in CycleNodes(c.cycles)
  {
    var ok, edges := BuildWaitEdges(snapshots, load);
    if !ok {
      return None;
    }
    var cycles := StronglyConnectedComponents(edges);
    var cycleEdges := CycleEdges(edges, CycleNodes(cycles));
    OneEdgePerCycleNode(edges, cycles);
    forall e | e in cycleEdges ensures e in edges && e.source in CycleNodes(cycles) {
      CycleEdgesExact(edges, CycleNodes(cycles), e);
    }
    CyclesTell(snapshots, load, edges, cycles);
    var certificate := Certificate(edges, cycles, cycleEdges);
    CertificateOrdered(certificate);
    r := Some(certificate);
  }
}
