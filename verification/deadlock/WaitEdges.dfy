/** The wait edges read from the final progress snapshots, and the graph they span. */
module WaitEdges {
  import opened Options
  import opened Reachability

  const INVALID_U32 := 0xFFFF_FFFF
  const INVALID_U64 := 0xFFFF_FFFF_FFFF_FFFF

  datatype Snapshot = Snapshot(waitRoute: nat, waitIteration: nat)

  /** A route record of a runtime graph, as far as the certificate uses it. */
  datatype Route = Route(sourceCore: int, producerToConsumerDelta: int)

  datatype Edge = Edge(destination: int, iteration: nat, route: nat, source: int, producerIteration: Option<nat>)

  /** What loading a route yields: none stands for every way in which reading the record raises. */
  type Loader = (int, nat) -> Option<Route>

  predicate Waits(s: Snapshot) {
    s.waitRoute != INVALID_U32 && s.waitIteration != INVALID_U64
  }

  function ProducerIteration(r: Route, iteration: nat): Option<nat> {
    var result := iteration - r.producerToConsumerDelta;
    if result >= 0 then Some(result) else None
  }

  function EdgeOf(tile: int, s: Snapshot, r: Route): Edge {
    Edge(tile, s.waitIteration, s.waitRoute, r.sourceCore, ProducerIteration(r, s.waitIteration))
  }

  /** The iteration in which the producer sends what iteration `iteration` of the consumer receives; none
      when it would be before the first. */
  ghost predicate Produces(producer: Option<nat>, delta: int, iteration: nat) {
    forall k: nat :: producer == Some(k) <==> k + delta == iteration
  }

  lemma ProducerSends(r: Route, iteration: nat)
    ensures Produces(ProducerIteration(r, iteration), r.producerToConsumerDelta, iteration)
  {
  }

  /** Edge e tells what its destination tile waits for: the iteration and route of its last snapshot, and
      the source of the route loaded for it. */
  ghost predicate IsWaitEdge(snapshots: map<int, Snapshot>, load: Loader, e: Edge) {
    && e.destination in snapshots
    && var s := snapshots[e.destination];
       && s.waitRoute != 0xFFFF_FFFF && s.waitIteration != 0xFFFF_FFFF_FFFF_FFFF
       && e.route == s.waitRoute && e.iteration == s.waitIteration
       && var loaded := load(e.destination, s.waitRoute);
          && loaded.Some? && e.source == loaded.value.sourceCore
          && Produces(e.producerIteration, loaded.value.producerToConsumerDelta, s.waitIteration)
  }

  /** There is only one such edge. */
  lemma WaitEdgeIs(snapshots: map<int, Snapshot>, load: Loader, e: Edge)
    ensures IsWaitEdge(snapshots, load, e) <==>
              && e.destination in snapshots && Waits(snapshots[e.destination])
              && load(e.destination, snapshots[e.destination].waitRoute).Some?
              && e == EdgeOf(e.destination, snapshots[e.destination], load(e.destination, snapshots[e.destination].waitRoute).value)
  {
    if e.destination in snapshots && load(e.destination, snapshots[e.destination].waitRoute).Some? {
      var r, iteration := load(e.destination, snapshots[e.destination].waitRoute).value, snapshots[e.destination].waitIteration;
      ProducerSends(r, iteration);
      if Produces(e.producerIteration, r.producerToConsumerDelta, iteration) {
        SameProducer(e.producerIteration, ProducerIteration(r, iteration), r.producerToConsumerDelta, iteration);
      }
    }
  }

  lemma SameProducer(p: Option<nat>, q: Option<nat>, delta: int, iteration: nat)
    requires Produces(p, delta, iteration) && Produces(q, delta, iteration)
    ensures p == q
  {
    if p.Some? { assert q == Some(p.value) <==> p.value + delta == iteration; }
    if q.Some? { assert p == Some(q.value) <==> q.value + delta == iteration; }
  }

  // ---- following the routes ----

  /** The tile that a tile waits for. */
  ghost function Upstream(snapshots: map<int, Snapshot>, load: Loader, tile: int): Option<int> {
    if tile in snapshots && snapshots[tile].waitRoute != 0xFFFF_FFFF && snapshots[tile].waitIteration != 0xFFFF_FFFF_FFFF_FFFF
       && load(tile, snapshots[tile].waitRoute).Some?
    then Some(load(tile, snapshots[tile].waitRoute).value.sourceCore)
    else None
  }

  /** ... and so on, n times. */
  ghost function Follow(snapshots: map<int, Snapshot>, load: Loader, tile: int, n: nat): Option<int> {
    if n == 0 then Some(tile)
    else
      var before := Follow(snapshots, load, tile, n - 1);
      if before.None? then None else Upstream(snapshots, load, before.value)
  }

  /** At most one edge for each tile, in the order of the tiles. */
  predicate OnePerTile(edges: seq<Edge>) {
    forall i, j :: 0 <= i < j < |edges| ==> edges[i].destination < edges[j].destination
  }

  // ---- the graph ----

  /** Where the edges of tile u lead, in the order of the edges. */
  function Sources(edges: seq<Edge>, u: int): seq<int> {
    if edges == [] then []
    else
      var last := edges[|edges| - 1];
      Sources(edges[..|edges| - 1], u) + if last.destination == u then [last.source] else []
  }

  function Destinations(edges: seq<Edge>): set<int> {
    set e | e in edges :: e.destination
  }

  function Tiles(edges: seq<Edge>): set<int> {
    Destinations(edges) + set e | e in edges :: e.source
  }

  function GraphOf(edges: seq<Edge>): Graph {
    map u | u in Destinations(edges) :: Sources(edges, u)
  }

  lemma {:induction false} SourcesExact(edges: seq<Edge>, u: int, v: int)
    ensures v in Sources(edges, u) <==> exists i :: 0 <= i < |edges| && edges[i].destination == u && edges[i].source == v
  {
    if edges != [] {
      var n := |edges| - 1;
      var init := edges[..n];
      SourcesExact(init, u, v);
      if v in Sources(init, u) {
        var i :| 0 <= i < |init| && init[i].destination == u && init[i].source == v;
        assert edges[i] == init[i];
      }
      if i :| 0 <= i < |edges| && edges[i].destination == u && edges[i].source == v {
        if i < n { assert init[i] == edges[i]; }
      }
    }
  }

  /** The arcs of the graph are the edges. */
  lemma ArcsAreEdges(edges: seq<Edge>, u: int, v: int)
    ensures Arc(GraphOf(edges), u, v) <==> exists i :: 0 <= i < |edges| && edges[i].destination == u && edges[i].source == v
  {
    SourcesExact(edges, u, v);
    if i :| 0 <= i < |edges| && edges[i].destination == u && edges[i].source == v {
      assert edges[i] in edges;
      assert u in Destinations(edges);
    }
  }

  lemma {:induction false} NoSources(edges: seq<Edge>, u: int)
    requires forall e :: e in edges ==> e.destination != u
    ensures Sources(edges, u) == []
  {
    if edges != [] {
      assert edges[|edges| - 1] in edges;
      NoSources(edges[..|edges| - 1], u);
    }
  }

  /** With one edge for each tile, a tile has at most one successor. */
  lemma {:induction false} OneSuccessor(edges: seq<Edge>, u: int)
    requires OnePerTile(edges)
    ensures |Sources(edges, u)| <= 1
  {
    if edges != [] {
      var n := |edges| - 1;
      var init := edges[..n];
      OneSuccessor(init, u);
      if edges[n].destination == u {
        forall e | e in init ensures e.destination != u {
          var i :| 0 <= i < n && init[i] == e;
          assert edges[i].destination < edges[n].destination;
        }
        NoSources(init, u);
      }
    }
  }

  lemma OutDegree(edges: seq<Edge>)
    requires OnePerTile(edges)
    ensures forall u :: |Next(GraphOf(edges), u)| <= 1
  {
    forall u ensures |Next(GraphOf(edges), u)| <= 1 {
      OneSuccessor(edges, u);
    }
  }
}
